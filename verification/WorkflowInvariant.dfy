/** What every transaction of the signature workflow keeps. */
module WorkflowInvariant {
  import opened Options
  import opened Workflow

  // ----- The invariant, table by table -----

  /** A document's head is one of its versions; an object stored for a version has its digest. */
  ghost predicate LibraryOk(sha: Bytes -> Digest, library: Library) {
    && (forall d | d in library.documents ::
          var item := library.documents[d];
          (d, item.version) in library.versions && library.versions[(d, item.version)] == Version(item.sha, item.key))
    && (forall d, n | (d, n) in library.versions ::
          && d in library.documents && 1 <= n <= library.documents[d].version
          && var version := library.versions[(d, n)];
             version.key in library.stored ==> sha(library.stored[version.key]) == version.sha)
  }

  /** A request froze a version that exists; an open or completed one on a live document froze its head. */
  ghost predicate RequestsOk(library: Library, requests: map<Id, Request>) {
    forall r | r in requests ::
      var item := requests[r];
      && item.document in library.documents
      && (item.document, item.version) in library.versions
      && library.versions[(item.document, item.version)].sha == item.sha
      && (library.documents[item.document].deleted ==> item.status !in {Draft, Open})
      && (!library.documents[item.document].deleted && item.status in {Open, Completed} ==>
            library.documents[item.document].version == item.version
                && library.documents[item.document].sha == item.sha)
  }

  /** The unique indexes describe the rows. */
  ghost predicate IndexesOk(desk: Desk) {
    && (forall i | i in desk.signers ::
          var row := desk.signers[i];
          row.request in desk.requests && (row.request, row.user) in desk.roster
              && desk.roster[(row.request, row.user)] == i)
    && (forall r, u | (r, u) in desk.roster :: desk.roster[(r, u)] in desk.signers
          && desk.signers[desk.roster[(r, u)]].request == r && desk.signers[desk.roster[(r, u)]].user == u)
    && (forall t | t in desk.links :: desk.links[t] in desk.requests && desk.requests[desk.links[t]].status != Draft)
  }

  ghost predicate EverybodySigned(desk: Desk, request: Id) {
    SignersOf(desk, request) != {} && Unsigned(desk, request) == {}
  }

  /** Completed means that everybody signed; nothing happens to the signers of a draft. */
  ghost predicate CompletionOk(desk: Desk) {
    && (forall r | r in desk.requests :: desk.requests[r].status == RequestStatus.Completed
          <==> EverybodySigned(desk, r))
    && (forall r | r in desk.requests && desk.requests[r].status == Open :: SignersOf(desk, r) != {})
    && (forall r | r in desk.requests && desk.requests[r].status == Open && desk.requests[r].mode == SerproId ::
          |SignersOf(desk, r)| == 1)
    && (forall i | i in desk.signers && desk.signers[i].request in desk.requests
          && desk.requests[desk.signers[i].request].status == Draft :: desk.signers[i].status == Pending)
  }

  /** Signature rows and signed signers are the same, and a signature binds what its request froze. */
  ghost predicate SignaturesOk(desk: Desk, signatures: map<Id, Signature>) {
    && (forall i | i in signatures :: i in desk.signers && desk.signers[i].status == Signed
          && desk.signers[i].request in desk.requests)
    && (forall i | i in desk.signers && desk.signers[i].status == Signed :: i in signatures && !desk.signers[i].revoked)
    && (forall i | i in signatures ::
          var r := desk.signers[i].request;
          && signatures[i].request == r
          && signatures[i].sha == desk.requests[r].sha
          && desk.signers[i].signedAt == Some(signatures[i].signedAt))
  }

  ghost function TenantOf(library: Library, desk: Desk, signer: Id): Option<Id> {
    if signer in desk.signers && desk.signers[signer].request in desk.requests
        && desk.requests[desk.signers[signer].request].document in library.documents then
      Some(library.documents[desk.requests[desk.signers[signer].request].document].tenant)
    else None
  }

  /** The committed signatures of a tenant made without paid or lifetime access. */
  ghost function UnpaidOf(library: Library, desk: Desk, unpaid: set<Id>, tenant: Id): set<Id> {
    set i | i in unpaid && TenantOf(library, desk, i) == Some(tenant)
  }

  ghost predicate QuotaOk(library: Library, desk: Desk, ledger: Ledger) {
    && ledger.unpaid <= ledger.signatures.Keys
    && (forall t :: AccountOf(ledger, t).used == |UnpaidOf(library, desk, ledger.unpaid, t)|)
    && (forall t :: AccountOf(ledger, t).used <= AccountOf(ledger, t).limit == FREE_SIGNATURES)
  }

  ghost predicate RequestEvent(audit: seq<Event>, r: Id, action: Action) {
    Event(Some(r), action, r) in audit
  }

  ghost predicate SignerEvent(signers: map<Id, Signer>, audit: seq<Event>, i: Id, action: Action)
    requires i in signers
  {
    Event(Some(signers[i].request), action, i) in audit
  }

  ghost predicate RequestAction(action: Action) {
    action.RequestCreated? || action.RequestOpened? || action.RequestCompleted? || action.RequestCancelled?
  }

  ghost predicate SignerAction(action: Action) {
    action.SignerLinkCreated? || action.DocumentViewed? || action.SignatureDeclined? || action.SignatureCompleted?
  }

  /** The audit events of a request say which statuses it has had. */
  ghost predicate RequestAuditOk(requests: map<Id, Request>, audit: seq<Event>) {
    && (forall e | e in audit && RequestAction(e.action) :: e.entity in requests)
    && (forall r | r in requests ::
          && RequestEvent(audit, r, RequestCreated)
          && (requests[r].status == RequestStatus.Completed <==> RequestEvent(audit, r, RequestCompleted))
          && (requests[r].status == RequestStatus.Cancelled <==> RequestEvent(audit, r, RequestCancelled))
          && (requests[r].status == Open ==> RequestEvent(audit, r, RequestOpened))
          && (requests[r].status == Draft ==> !RequestEvent(audit, r, RequestOpened)))
  }

  ghost predicate SignerAuditOk(signers: map<Id, Signer>, audit: seq<Event>) {
    && (forall e | e in audit && SignerAction(e.action) :: e.entity in signers)
    && (forall i | i in signers ::
          && SignerEvent(signers, audit, i, SignerLinkCreated)
          && (signers[i].status == Signed <==> SignerEvent(signers, audit, i, SignatureCompleted))
          && (signers[i].status == SignerStatus.Declined ==> SignerEvent(signers, audit, i, SignatureDeclined))
          && (signers[i].status in {Pending, Viewed} ==> !SignerEvent(signers, audit, i, SignatureDeclined))
          && (signers[i].status == Viewed ==> SignerEvent(signers, audit, i, DocumentViewed))
          && (signers[i].status == Pending ==> !SignerEvent(signers, audit, i, DocumentViewed)))
  }

  ghost predicate Invariant(sha: Bytes -> Digest, s: State) {
    && LibraryOk(sha, s.library)
    && RequestsOk(s.library, s.desk.requests)
    && IndexesOk(s.desk)
    && CompletionOk(s.desk)
    && SignaturesOk(s.desk, s.ledger.signatures)
    && QuotaOk(s.library, s.desk, s.ledger)
    && RequestAuditOk(s.desk.requests, s.audit)
    && SignerAuditOk(s.desk.signers, s.audit)
  }

  lemma StartInvariant(sha: Bytes -> Digest)
    ensures Invariant(sha, START)
  {
    forall t ensures AccountOf(START.ledger, t).used == |UnpaidOf(START.library, START.desk, {}, t)| {
      assert UnpaidOf(START.library, START.desk, {}, t) == {};
    }
  }

  // ----- Appending to the audit -----

  lemma AuditGrows(audit: seq<Event>, more: seq<Event>)
    ensures forall e :: e in audit + more <==> e in audit || e in more
  {
  }

  /** An event that is about neither a request's nor a signer's status changes nothing for either. */
  lemma OtherEvent(desk: Desk, audit: seq<Event>, e: Event)
    requires RequestAuditOk(desk.requests, audit) && SignerAuditOk(desk.signers, audit)
    requires !RequestAction(e.action) && !SignerAction(e.action)
    ensures RequestAuditOk(desk.requests, audit + [e]) && SignerAuditOk(desk.signers, audit + [e])
  {
    AuditGrows(audit, [e]);
  }

  /** An event about a request leaves the signers' history alone, and the other way round. */
  lemma RequestEventKeepsSigners(signers: map<Id, Signer>, audit: seq<Event>, e: Event)
    requires SignerAuditOk(signers, audit) && !SignerAction(e.action)
    ensures SignerAuditOk(signers, audit + [e])
  {
    AuditGrows(audit, [e]);
  }

  lemma SignerEventKeepsRequests(requests: map<Id, Request>, audit: seq<Event>, e: Event)
    requires RequestAuditOk(requests, audit) && !RequestAction(e.action)
    ensures RequestAuditOk(requests, audit + [e])
  {
    AuditGrows(audit, [e]);
  }

  // ----- Documents -----

  /** The keys committed rows refer to: those of versions and of signed artifacts. */
  ghost function Referenced(s: State): set<Key> {
    (set v | v in s.library.versions :: s.library.versions[v].key)
        + (set i | i in s.ledger.signatures :: s.ledger.signatures[i].artifact)
  }

  /** A key the store has just made up: it names no object, and no row refers to it. */
  ghost predicate NewKey(s: State, key: Key) {
    key !in s.library.stored && key !in Referenced(s)
  }

  ghost predicate Unnamed(library: Library, key: Key) {
    forall v | v in library.versions :: library.versions[v].key != key
  }

  lemma NewIsUnnamed(s: State, key: Key)
    requires NewKey(s, key)
    ensures key !in s.library.stored && Unnamed(s.library, key)
  {
    forall v | v in s.library.versions ensures s.library.versions[v].key != key {
      assert s.library.versions[v].key in Referenced(s);
    }
  }

  /** `content` is what every version under `key` was computed from. */
  ghost predicate Fits(sha: Bytes -> Digest, library: Library, key: Key, content: Bytes) {
    forall v | v in library.versions && library.versions[v].key == key :: library.versions[v].sha == sha(content)
  }

  lemma UnnamedFits(sha: Bytes -> Digest, library: Library, key: Key, content: Bytes)
    requires Unnamed(library, key)
    ensures Fits(sha, library, key, content)
  {
  }

  /** Storing an object disturbs no version if it fits those that name its key. */
  lemma StoreKeepsInvariant(sha: Bytes -> Digest, s: State, key: Key, content: Bytes)
    requires Invariant(sha, s) && Fits(sha, s.library, key, content)
    ensures Invariant(sha, StoreObject(s, key, content))
  {
    var after := StoreObject(s, key, content);
    assert LibraryOk(sha, after.library);
    assert QuotaOk(after.library, after.desk, after.ledger) by {
      UnpaidUnchanged(s.library, s.desk, after.library, after.desk, s.ledger.unpaid);
    }
  }

  /** Wherever a transaction breaks, it ends in its old rows or its new ones, with or without the object. */
  lemma CommitKeepsInvariant(sha: Bytes -> Digest, s: State, after: State, key: Key, content: Bytes, fault: Fault)
    requires Invariant(sha, s) && Unnamed(s.library, key)
    requires Invariant(sha, after) && Fits(sha, after.library, key, content)
    ensures Invariant(sha, Commit(s, after, key, content, fault).state)
  {
    hide Invariant;
    if KeepsObject(fault) {
      if TakesEffect(fault) {
        StoreKeepsInvariant(sha, after, key, content);
      } else {
        StoreKeepsInvariant(sha, s, key, if fault.TornPut? then fault.partial else content);
      }
    }
  }

  /** The counters depend on who signed for which tenant only. */
  lemma UnpaidUnchanged(library: Library, desk: Desk, library': Library, desk': Desk, unpaid: set<Id>)
    requires forall i | i in unpaid :: TenantOf(library, desk, i) == TenantOf(library', desk', i)
    ensures forall t :: UnpaidOf(library, desk, unpaid, t) == UnpaidOf(library', desk', unpaid, t)
  {
  }

  /** The next version of a document (or the first of a new one) is written under a new key. */
  ghost function NewVersion(library: Library, document: Id, item: Document): Library {
    library.(documents := library.documents[document := item],
             versions := library.versions[(document, item.version) := Version(item.sha, item.key)])
  }

  ghost predicate NextVersion(library: Library, document: Id, item: Document) {
    && item.key !in library.stored && Unnamed(library, item.key) && !item.deleted
    && (if document in library.documents then
          item.version == library.documents[document].version + 1 && item.tenant == library.documents[document].tenant
        else item.version == 1)
  }

  lemma VersionKeepsLibrary(sha: Bytes -> Digest, library: Library, document: Id, item: Document, content: Bytes)
    requires LibraryOk(sha, library) && NextVersion(library, document, item) && item.sha == sha(content)
    ensures LibraryOk(sha, NewVersion(library, document, item))
    ensures Fits(sha, NewVersion(library, document, item), item.key, content)
  {
  }

  lemma VersionKeepsRequests(sha: Bytes -> Digest, library: Library, requests: map<Id, Request>, document: Id,
                             item: Document)
    requires RequestsOk(library, requests) && NextVersion(library, document, item)
    requires LibraryOk(sha, library)
    requires document in library.documents ==> !library.documents[document].deleted
    requires forall r | r in requests && requests[r].document == document ::
        requests[r].status !in {Open, RequestStatus.Completed}
    ensures RequestsOk(NewVersion(library, document, item), requests)
  {
  }

  lemma VersionKeepsQuota(library: Library, desk: Desk, ledger: Ledger, document: Id, item: Document)
    requires QuotaOk(library, desk, ledger) && RequestsOk(library, desk.requests)
        && NextVersion(library, document, item)
    ensures QuotaOk(NewVersion(library, document, item), desk, ledger)
  {
    UnpaidUnchanged(library, desk, NewVersion(library, document, item), desk, ledger.unpaid);
  }

  lemma VersionKeepsInvariant(sha: Bytes -> Digest, s: State, document: Id, item: Document, content: Bytes,
                              action: Action)
    requires Invariant(sha, s) && NextVersion(s.library, document, item) && item.sha == sha(content)
    requires document in s.library.documents ==> !s.library.documents[document].deleted
    requires forall r | r in s.desk.requests && s.desk.requests[r].document == document ::
        s.desk.requests[r].status !in {Open, RequestStatus.Completed}
    requires action.DocumentUploaded? || action.VersionCreated?
    ensures Invariant(sha, State(NewVersion(s.library, document, item), s.desk, s.ledger,
        s.audit + [Event(None, action, document)]))
    ensures Fits(sha, NewVersion(s.library, document, item), item.key, content)
  {
    hide LibraryOk, RequestsOk, IndexesOk, CompletionOk, SignaturesOk, QuotaOk, RequestAuditOk, SignerAuditOk;
    VersionKeepsLibrary(sha, s.library, document, item, content);
    VersionKeepsRequests(sha, s.library, s.desk.requests, document, item);
    VersionKeepsQuota(s.library, s.desk, s.ledger, document, item);
    OtherEvent(s.desk, s.audit, Event(None, action, document));
  }

  lemma CreateDocumentKeepsInvariant(sha: Bytes -> Digest, s: State, document: Id, tenant: Id, content: Bytes,
                                     gate: Gate, key: Key, fault: Fault)
    requires Invariant(sha, s) && document !in s.library.documents && NewKey(s, key)
    ensures Invariant(sha, CreateDocument(sha, s, document, tenant, content, gate, key, fault).state)
  {
    hide LibraryOk, IndexesOk, CompletionOk, SignaturesOk, QuotaOk, RequestAuditOk, SignerAuditOk, NewKey, Unnamed,
        Commit;
    NewIsUnnamed(s, key);
    if content != "" && gate.None? {
      var item := Document(tenant, 1, sha(content), key, false);
      VersionKeepsInvariant(sha, s, document, item, content, DocumentUploaded);
      CommitKeepsInvariant(sha, s, WithDocument(sha, s, document, tenant, content, key), key, content, fault);
    }
  }

  lemma AddVersionKeepsInvariant(sha: Bytes -> Digest, s: State, document: Id, content: Bytes, gate: Gate, key: Key,
                                 fault: Fault)
    requires Invariant(sha, s) && NewKey(s, key)
    ensures Invariant(sha, AddVersion(sha, s, document, content, gate, key, fault).state)
  {
    hide LibraryOk, RequestsOk, IndexesOk, CompletionOk, SignaturesOk, QuotaOk, RequestAuditOk, SignerAuditOk, NewKey,
        Unnamed, Commit;
    NewIsUnnamed(s, key);
    if content != "" && LiveDocument(s, document) && gate.None? && !Frozen(s, document) {
      var item := s.library.documents[document];
      VersionKeepsInvariant(sha, s, document, item.(version := item.version + 1, sha := sha(content), key := key),
          content, VersionCreated);
      CommitKeepsInvariant(sha, s, WithVersion(sha, s, document, content, key), key, content, fault);
    }
  }

  // ----- Requests -----

  /** No signature is touched: signed rows are the same, nobody else is signed, and requests keep what they froze. */
  ghost predicate SameSignatures(desk: Desk, desk': Desk) {
    && (forall i | i in desk.signers ::
          && i in desk'.signers && desk'.signers[i].request == desk.signers[i].request
          && (desk.signers[i].status == Signed ==> desk'.signers[i] == desk.signers[i]))
    && (forall i | i in desk'.signers && desk'.signers[i].status == Signed ::
          i in desk.signers && desk.signers[i].status == Signed)
    && (forall r | r in desk.requests ::
          && r in desk'.requests && desk'.requests[r].document == desk.requests[r].document
          && desk'.requests[r].sha == desk.requests[r].sha && desk'.requests[r].expiresAt == desk.requests[r].expiresAt)
  }

  lemma SameSignaturesKeepLedger(library: Library, desk: Desk, desk': Desk, ledger: Ledger)
    requires SignaturesOk(desk, ledger.signatures) && QuotaOk(library, desk, ledger)
        && SameSignatures(desk, desk')
    ensures SignaturesOk(desk', ledger.signatures) && QuotaOk(library, desk', ledger)
  {
    UnpaidUnchanged(library, desk, library, desk', ledger.unpaid);
  }

  lemma SameSigners(desk: Desk, desk': Desk)
    requires desk'.signers == desk.signers
    ensures forall r :: SignersOf(desk', r) == SignersOf(desk, r)
    ensures forall r :: Unsigned(desk', r) == Unsigned(desk, r)
  {
    forall r ensures Unsigned(desk', r) == Unsigned(desk, r) {
      assert SignersOf(desk', r) == SignersOf(desk, r);
    }
  }

  function WithRequest(desk: Desk, request: Id, row: Request): Desk {
    desk.(requests := desk.requests[request := row])
  }

  lemma RowKeepsIndexes(desk: Desk, request: Id, row: Request)
    requires IndexesOk(desk) && (row.status == Draft ==> request !in desk.requests)
    ensures IndexesOk(WithRequest(desk, request, row))
  {
  }

  /** A row may be written if its status fits the signers the request has. */
  lemma RowKeepsCompletion(desk: Desk, request: Id, row: Request)
    requires CompletionOk(desk) && (row.status == RequestStatus.Completed <==> EverybodySigned(desk, request))
    requires row.status == Open ==>
              SignersOf(desk, request) != {} && (row.mode == SerproId ==> |SignersOf(desk, request)| == 1)
    requires row.status == Draft ==> SignersOf(desk, request) == {}
    ensures CompletionOk(WithRequest(desk, request, row))
  {
    SameSigners(desk, WithRequest(desk, request, row));
    assert forall i | i in desk.signers && desk.signers[i].request == request :: i in SignersOf(desk, request);
  }

  lemma NewRequestHasNoSigners(desk: Desk, request: Id)
    requires IndexesOk(desk) && request !in desk.requests
    ensures SignersOf(desk, request) == {}
  {
  }

  lemma RequestCreatedAudit(requests: map<Id, Request>, audit: seq<Event>, request: Id, row: Request)
    requires RequestAuditOk(requests, audit) && request !in requests && row.status == Draft
    ensures RequestAuditOk(requests[request := row], audit + [Event(Some(request), RequestCreated, request)])
  {
    AuditGrows(audit, [Event(Some(request), RequestCreated, request)]);
    assert forall a | RequestAction(a) :: !RequestEvent(audit, request, a);
  }

  lemma HeadKeepsRequests(sha: Bytes -> Digest, library: Library, requests: map<Id, Request>, request: Id, row: Request)
    requires LibraryOk(sha, library) && RequestsOk(library, requests)
    requires row.document in library.documents && !library.documents[row.document].deleted
    requires row.version == library.documents[row.document].version && row.sha == library.documents[row.document].sha
    ensures RequestsOk(library, requests[request := row])
  {
  }

  lemma CancelledKeepsRequests(library: Library, requests: map<Id, Request>, request: Id)
    requires RequestsOk(library, requests) && request in requests
    ensures RequestsOk(library, requests[request := requests[request].(status := RequestStatus.Cancelled)])
  {
  }

  lemma CreateRequestKeepsInvariant(sha: Bytes -> Digest, s: State, request: Id, document: Id, expiresAt: nat,
                                    now: nat, gate: Gate)
    requires Invariant(sha, s) && request !in s.desk.requests
    ensures Invariant(sha, CreateRequest(s, request, document, expiresAt, now, gate).state)
  {
    hide LibraryOk, RequestsOk, IndexesOk, CompletionOk, SignaturesOk, QuotaOk, RequestAuditOk, SignerAuditOk;
    var outcome := CreateRequest(s, request, document, expiresAt, now, gate);
    if outcome.Done? {
      var desk := outcome.state.desk;
      var row := desk.requests[request];
      HeadKeepsRequests(sha, s.library, s.desk.requests, request, row);
      NewRequestHasNoSigners(s.desk, request);
      RowKeepsIndexes(s.desk, request, row);
      RowKeepsCompletion(s.desk, request, row);
      SameSignaturesKeepLedger(s.library, s.desk, desk, s.ledger);
      RequestCreatedAudit(s.desk.requests, s.audit, request, row);
      RequestEventKeepsSigners(s.desk.signers, s.audit, Event(Some(request), RequestCreated, request));
    }
  }

  lemma InProgressNotComplete(desk: Desk, request: Id)
    requires CompletionOk(desk) && request in desk.requests && desk.requests[request].status != RequestStatus.Completed
    ensures !EverybodySigned(desk, request)
  {
  }

  lemma StatusAudit(requests: map<Id, Request>, audit: seq<Event>, request: Id, row: Request, action: Action)
    requires RequestAuditOk(requests, audit) && request in requests && requests[request].status in {Draft, Open}
    requires
      || (row.status == RequestStatus.Cancelled && action.RequestCancelled?)
      || (row.status == RequestStatus.Completed && action.RequestCompleted?)
      || (row.status == Open && action.RequestOpened?)
    ensures RequestAuditOk(requests[request := row], audit + [Event(Some(request), action, request)])
  {
    AuditGrows(audit, [Event(Some(request), action, request)]);
  }

  lemma CancelKeepsInvariant(sha: Bytes -> Digest, s: State, request: Id)
    requires Invariant(sha, s) && request in s.desk.requests && s.desk.requests[request].status in {Draft, Open}
    ensures Invariant(sha, SetStatus(s, request, RequestStatus.Cancelled, RequestCancelled))
  {
    hide LibraryOk, RequestsOk, IndexesOk, CompletionOk, SignaturesOk, QuotaOk, RequestAuditOk, SignerAuditOk;
    var s' := SetStatus(s, request, RequestStatus.Cancelled, RequestCancelled);
    CancelledKeepsRequests(s.library, s.desk.requests, request);
    InProgressNotComplete(s.desk, request);
    RowKeepsIndexes(s.desk, request, s'.desk.requests[request]);
    RowKeepsCompletion(s.desk, request, s'.desk.requests[request]);
    SameSignaturesKeepLedger(s.library, s.desk, s'.desk, s.ledger);
    StatusAudit(s.desk.requests, s.audit, request, s'.desk.requests[request], RequestCancelled);
    RequestEventKeepsSigners(s.desk.signers, s.audit, Event(Some(request), RequestCancelled, request));
  }

  lemma OpenRequestKeepsInvariant(sha: Bytes -> Digest, s: State, request: Id, mode: Mode, gate: Gate, ready: Gate)
    requires Invariant(sha, s)
    ensures Invariant(sha, OpenRequest(s, request, mode, gate, ready).state)
  {
    hide LibraryOk, RequestsOk, IndexesOk, CompletionOk, SignaturesOk, QuotaOk, RequestAuditOk, SignerAuditOk;
    var outcome := OpenRequest(s, request, mode, gate, ready);
    if outcome.Done? {
      var s' := outcome.state;
      HeadKeepsRequests(sha, s.library, s.desk.requests, request, s'.desk.requests[request]);
      InProgressNotComplete(s.desk, request);
      RowKeepsIndexes(s.desk, request, s'.desk.requests[request]);
      RowKeepsCompletion(s.desk, request, s'.desk.requests[request]);
      SameSignaturesKeepLedger(s.library, s.desk, s'.desk, s.ledger);
      StatusAudit(s.desk.requests, s.audit, request, s'.desk.requests[request], RequestOpened);
      RequestEventKeepsSigners(s.desk.signers, s.audit, Event(Some(request), RequestOpened, request));
    }
  }

  // ----- Deleting a document -----

  /** Cancelling the rows one by one leaves no request of them in progress and touches no other. */
  lemma {:induction false} CancelAllKeepsInvariant(sha: Bytes -> Digest, s: State, rows: seq<Id>)
    requires Invariant(sha, s) && NoDuplicates(rows)
    requires forall r | r in rows :: r in s.desk.requests && s.desk.requests[r].status in {Draft, Open}
    ensures Invariant(sha, CancelAll(s, rows))
    ensures CancelAll(s, rows).library == s.library && CancelAll(s, rows).ledger == s.ledger
    ensures CancelAll(s, rows).desk ==
            s.desk.(requests := map r | r in s.desk.requests ::
                      if r in rows then s.desk.requests[r].(status := RequestStatus.Cancelled) else s.desk.requests[r])
    ensures CancelAll(s, rows).audit == s.audit + Cancellations(rows)
    decreases |rows|
  {
    hide Invariant;
    if rows == [] {
      assert s.desk.requests == map r | r in s.desk.requests :: s.desk.requests[r];
    } else {
      CancelKeepsInvariant(sha, s, rows[0]);
      var next := SetStatus(s, rows[0], RequestStatus.Cancelled, RequestCancelled);
      forall r | r in rows[1..] ensures r != rows[0] {
      }
      CancelAllKeepsInvariant(sha, next, rows[1..]);
      assert Cancellations(rows) == [Event(Some(rows[0]), RequestCancelled, rows[0])] + Cancellations(rows[1..]);
    }
  }

  ghost predicate NoDuplicates(rows: seq<Id>) {
    forall i, j | 0 <= i < j < |rows| :: rows[i] != rows[j]
  }

  ghost function Cancellations(rows: seq<Id>): seq<Event> {
    seq(|rows|, i requires 0 <= i < |rows| => Event(Some(rows[i]), RequestCancelled, rows[i]))
  }

  lemma DeletedKeepsLibrary(sha: Bytes -> Digest, library: Library, requests: map<Id, Request>, document: Id)
    requires LibraryOk(sha, library) && RequestsOk(library, requests) && document in library.documents
    requires forall r | r in requests && requests[r].document == document :: requests[r].status !in {Draft, Open}
    ensures var library' := library.(documents :=
        library.documents[document := library.documents[document].(deleted := true)]);
            LibraryOk(sha, library') && RequestsOk(library', requests)
  {
  }

  lemma DeleteDocumentKeepsInvariant(sha: Bytes -> Digest, s: State, document: Id, gate: Gate, force: bool,
                                     rows: seq<Id>)
    requires Invariant(sha, s) && NoDuplicates(rows) && forall r :: r in rows <==> r in ActiveRequests(s, document)
    ensures Invariant(sha, DeleteDocument(s, document, gate, force, rows).state)
  {
    hide LibraryOk, RequestsOk, IndexesOk, CompletionOk, SignaturesOk, QuotaOk, RequestAuditOk, SignerAuditOk;
    var outcome := DeleteDocument(s, document, gate, force, rows);
    if outcome.Done? {
      CancelAllKeepsInvariant(sha, s, rows);
      var c := CancelAll(s, rows);
      var library := outcome.state.library;
      forall r | r in c.desk.requests && c.desk.requests[r].document == document
          ensures c.desk.requests[r].status !in {Draft, Open} {
        assert r in rows <==> r in ActiveRequests(s, document);
      }
      DeletedKeepsLibrary(sha, s.library, c.desk.requests, document);
      DeletedKeepsLedger(s.library, library, c.desk, s.ledger, document);
      OtherEvent(c.desk, c.audit, Event(None, DocumentDeleted, document));
    }
  }

  lemma DeletedKeepsLedger(library: Library, library': Library, desk: Desk, ledger: Ledger, document: Id)
    requires SignaturesOk(desk, ledger.signatures) && QuotaOk(library, desk, ledger)
        && document in library.documents
    requires var item := library.documents[document].(deleted := true);
             library' == library.(documents := library.documents[document := item])
    ensures SignaturesOk(desk, ledger.signatures) && QuotaOk(library', desk, ledger)
  {
    UnpaidUnchanged(library, desk, library', desk, ledger.unpaid);
  }

  // ----- Signers -----

  function WithSigner(desk: Desk, signer: Id, row: Signer): Desk {
    desk.(signers := desk.signers[signer := row])
  }

  lemma AddSignerKeepsIndexes(desk: Desk, signer: Id, row: Signer)
    requires IndexesOk(desk) && signer !in desk.signers && row.request in desk.requests
        && (row.request, row.user) !in desk.roster
    ensures IndexesOk(WithSigner(desk, signer, row).(roster := desk.roster[(row.request, row.user) := signer]))
  {
  }

  lemma AddSignerKeepsCompletion(desk: Desk, desk': Desk, signer: Id, row: Signer)
    requires CompletionOk(desk) && signer !in desk.signers && row.request in desk.requests
    requires desk.requests[row.request].status == Draft && row.status == Pending
    requires desk'.requests == desk.requests && desk'.signers == desk.signers[signer := row]
    ensures CompletionOk(desk')
  {
    forall r | r in desk.requests && r != row.request
      ensures SignersOf(desk', r) == SignersOf(desk, r) && Unsigned(desk', r) == Unsigned(desk, r)
    {
    }
    assert signer in Unsigned(desk', row.request);
  }

  lemma SignerCreatedAudit(signers: map<Id, Signer>, audit: seq<Event>, signer: Id, row: Signer)
    requires SignerAuditOk(signers, audit) && signer !in signers && row.status == Pending
    ensures SignerAuditOk(signers[signer := row], audit + [Event(Some(row.request), SignerLinkCreated, signer)])
  {
    AuditGrows(audit, [Event(Some(row.request), SignerLinkCreated, signer)]);
  }

  lemma AddSignerKeepsInvariant(sha: Bytes -> Digest, s: State, signer: Id, request: Id, user: string, gate: Gate,
                                role: Gate)
    requires Invariant(sha, s) && signer !in s.desk.signers
    ensures Invariant(sha, AddSigner(s, signer, request, user, gate, role).state)
  {
    hide LibraryOk, RequestsOk, IndexesOk, CompletionOk, SignaturesOk, QuotaOk, RequestAuditOk, SignerAuditOk;
    var outcome := AddSigner(s, signer, request, user, gate, role);
    if outcome.Done? {
      var desk := outcome.state.desk;
      var row := desk.signers[signer];
      AddSignerKeepsIndexes(s.desk, signer, row);
      AddSignerKeepsCompletion(s.desk, desk, signer, row);
      SameSignaturesKeepLedger(s.library, s.desk, desk, s.ledger);
      SignerCreatedAudit(s.desk.signers, s.audit, signer, row);
      SignerEventKeepsRequests(s.desk.requests, s.audit, Event(Some(request), SignerLinkCreated, signer));
    }
  }

  lemma RelinkedKeepsIndexes(desk: Desk, token: Token, request: Id)
    requires IndexesOk(desk) && request in desk.requests && desk.requests[request].status != Draft
    ensures IndexesOk(desk.(links := Relinked(desk.links, token, request)))
  {
  }

  lemma SameSignersKeepCompletion(desk: Desk, desk': Desk)
    requires CompletionOk(desk) && desk'.requests == desk.requests && desk'.signers == desk.signers
    ensures CompletionOk(desk')
  {
    SameSigners(desk, desk');
  }

  lemma CreateLinkKeepsInvariant(sha: Bytes -> Digest, s: State, request: Id, token: Token, gate: Gate)
    requires Invariant(sha, s)
    ensures Invariant(sha, CreateLink(s, request, token, gate).state)
  {
    hide LibraryOk, RequestsOk, IndexesOk, CompletionOk, SignaturesOk, QuotaOk, RequestAuditOk, SignerAuditOk;
    var outcome := CreateLink(s, request, token, gate);
    if outcome.Done? {
      var desk := outcome.state.desk;
      RelinkedKeepsIndexes(s.desk, token, request);
      SameSignersKeepCompletion(s.desk, desk);
      SameSignaturesKeepLedger(s.library, s.desk, desk, s.ledger);
      OtherEvent(s.desk, s.audit, Event(Some(request), RequestLinkCreated, request));
    }
  }

  /** A change of a signer's row that neither makes nor unmakes a signature. */
  ghost predicate RowChanges(desk: Desk, signer: Id, row: Signer) {
    && signer in desk.signers
    && row.request == desk.signers[signer].request && row.user == desk.signers[signer].user
    && desk.signers[signer].status != Signed && row.status != Signed
    && row.request in desk.requests
    && (desk.requests[row.request].status == Draft ==> row.status == desk.signers[signer].status)
  }

  lemma RowChangeCounts(desk: Desk, signer: Id, row: Signer)
    requires RowChanges(desk, signer, row)
    ensures forall r :: SignersOf(WithSigner(desk, signer, row), r) == SignersOf(desk, r)
    ensures forall r :: Unsigned(WithSigner(desk, signer, row), r) == Unsigned(desk, r)
  {
    var desk' := WithSigner(desk, signer, row);
    forall r ensures SignersOf(desk', r) == SignersOf(desk, r) && Unsigned(desk', r) == Unsigned(desk, r) {
    }
  }

  lemma RowChangeKeepsIndexes(desk: Desk, signer: Id, row: Signer)
    requires IndexesOk(desk) && RowChanges(desk, signer, row)
    ensures IndexesOk(WithSigner(desk, signer, row))
  {
  }

  lemma RowChangeKeepsCompletion(desk: Desk, signer: Id, row: Signer)
    requires CompletionOk(desk) && RowChanges(desk, signer, row)
    ensures CompletionOk(WithSigner(desk, signer, row))
  {
    hide SignersOf, Unsigned;
    RowChangeCounts(desk, signer, row);
  }

  lemma RowChangeAudit(signers: map<Id, Signer>, audit: seq<Event>, signer: Id, row: Signer, action: Action)
    requires SignerAuditOk(signers, audit) && signer in signers && row.request == signers[signer].request
        && signers[signer].status != Signed
    requires
      || (action.SignerLinkRevoked? && row.status == signers[signer].status)
      || (action.DocumentViewed? && signers[signer].status == Pending && row.status == Viewed)
      || (action.SignatureDeclined? && signers[signer].status in {Pending, Viewed}
            && row.status == SignerStatus.Declined)
      || (action.SignatureCompleted? && row.status == Signed)
    ensures SignerAuditOk(signers[signer := row], audit + [Event(Some(row.request), action, signer)])
  {
    AuditGrows(audit, [Event(Some(row.request), action, signer)]);
  }

  lemma SetSignerKeepsInvariant(sha: Bytes -> Digest, s: State, signer: Id, row: Signer, action: Action)
    requires Invariant(sha, s) && RowChanges(s.desk, signer, row)
    requires
      || (action.SignerLinkRevoked? && row.status == s.desk.signers[signer].status)
      || (action.DocumentViewed? && s.desk.signers[signer].status == Pending && row.status == Viewed)
      || (action.SignatureDeclined? && s.desk.signers[signer].status in {Pending, Viewed}
            && row.status == SignerStatus.Declined)
    ensures Invariant(sha, SetSigner(s, signer, row, action))
  {
    hide LibraryOk, RequestsOk, IndexesOk, CompletionOk, SignaturesOk, QuotaOk, RequestAuditOk, SignerAuditOk;
    RowChangeKeepsIndexes(s.desk, signer, row);
    RowChangeKeepsCompletion(s.desk, signer, row);
    SameSignaturesKeepLedger(s.library, s.desk, WithSigner(s.desk, signer, row), s.ledger);
    RowChangeAudit(s.desk.signers, s.audit, signer, row, action);
    SignerEventKeepsRequests(s.desk.requests, s.audit, Event(Some(row.request), action, signer));
  }

  lemma RevokeSignerLinkKeepsInvariant(sha: Bytes -> Digest, s: State, request: Id, signer: Id, gate: Gate)
    requires Invariant(sha, s)
    ensures Invariant(sha, RevokeSignerLink(s, request, signer, gate).state)
  {
    hide LibraryOk, RequestsOk, IndexesOk, CompletionOk, SignaturesOk, QuotaOk, RequestAuditOk, SignerAuditOk;
    var outcome := RevokeSignerLink(s, request, signer, gate);
    if outcome.Done? && outcome.state != s {
      SetSignerKeepsInvariant(sha, s, signer, s.desk.signers[signer].(revoked := true), SignerLinkRevoked);
    }
  }

  /** Whom a signing link resolves to. */
  lemma ResolvedSigner(s: State, token: Token, user: string, now: nat)
    requires IndexesOk(s.desk) && Resolve(s, token, user, now).Granted?
    ensures var a := Resolve(s, token, user, now);
            && a.signer in s.desk.signers && a.request in s.desk.requests
            && s.desk.signers[a.signer].request == a.request && s.desk.signers[a.signer].user == user
            && !s.desk.signers[a.signer].revoked
            && now < s.desk.requests[a.request].expiresAt && s.desk.requests[a.request].status == Open
  {
  }

  lemma ViewKeepsInvariant(sha: Bytes -> Digest, s: State, token: Token, user: string, now: nat)
    requires Invariant(sha, s)
    ensures Invariant(sha, View(s, token, user, now).state)
  {
    hide LibraryOk, RequestsOk, IndexesOk, CompletionOk, SignaturesOk, QuotaOk, RequestAuditOk, SignerAuditOk;
    var access := Resolve(s, token, user, now);
    if access.Granted? {
      ResolvedSigner(s, token, user, now);
      var row := s.desk.signers[access.signer];
      if row.status == Pending {
        SetSignerKeepsInvariant(sha, s, access.signer, row.(status := Viewed), DocumentViewed);
      }
    }
  }

  lemma DeclineKeepsInvariant(sha: Bytes -> Digest, s: State, token: Token, user: string, now: nat)
    requires Invariant(sha, s)
    ensures Invariant(sha, Decline(s, token, user, now).state)
  {
    hide LibraryOk, RequestsOk, IndexesOk, CompletionOk, SignaturesOk, QuotaOk, RequestAuditOk, SignerAuditOk;
    var access := Resolve(s, token, user, now);
    if access.Granted? {
      ResolvedSigner(s, token, user, now);
      var row := s.desk.signers[access.signer];
      if row.status == Pending || row.status == Viewed {
        SetSignerKeepsInvariant(sha, s, access.signer, row.(status := SignerStatus.Declined), SignatureDeclined);
      } else {
        assert row.status == Signed || row.status == SignerStatus.Declined;
      }
    }
  }

  // ----- Signing -----

  /** The desk once `signer` has signed, before the request is looked at. */
  ghost function SignedDesk(desk: Desk, signer: Id, signedAt: nat): Desk
    requires signer in desk.signers
  {
    WithSigner(desk, signer, desk.signers[signer].(status := Signed, signedAt := Some(signedAt)))
  }

  lemma SignedKeepsIndexes(desk: Desk, signer: Id, signedAt: nat)
    requires IndexesOk(desk) && signer in desk.signers
    ensures IndexesOk(SignedDesk(desk, signer, signedAt))
  {
  }

  lemma SignedCounts(desk: Desk, signer: Id, signedAt: nat, request: Id)
    requires signer in desk.signers && desk.signers[signer].request == request
    ensures forall r :: SignersOf(SignedDesk(desk, signer, signedAt), r) == SignersOf(desk, r)
    ensures forall r | r != request :: Unsigned(SignedDesk(desk, signer, signedAt), r) == Unsigned(desk, r)
    ensures Unsigned(SignedDesk(desk, signer, signedAt), request) == Unsigned(desk, request) - {signer}
    ensures signer in SignersOf(desk, request)
  {
    var desk' := SignedDesk(desk, signer, signedAt);
    forall r ensures SignersOf(desk', r) == SignersOf(desk, r) {
    }
    forall r | r != request ensures Unsigned(desk', r) == Unsigned(desk, r) {
    }
  }

  /** One signature takes the signer off the list; if nobody is left the request becomes complete. */
  lemma SignedKeepsCompletion(desk: Desk, signer: Id, signedAt: nat, request: Id)
    requires CompletionOk(desk) && signer in desk.signers && desk.signers[signer].request == request
        && desk.signers[signer].status != Signed
    requires request in desk.requests && desk.requests[request].status == Open
    ensures var desk' := SignedDesk(desk, signer, signedAt);
            && Unsigned(desk', request) == Unsigned(desk, request) - {signer}
            && (Unsigned(desk', request) != {} ==> CompletionOk(desk'))
            && (Unsigned(desk', request) == {} ==>
                  CompletionOk(WithRequest(desk', request,
                      desk.requests[request].(status := RequestStatus.Completed, completedAt := Some(signedAt)))))
  {
    hide SignersOf, Unsigned;
    var desk' := SignedDesk(desk, signer, signedAt);
    SignedCounts(desk, signer, signedAt, request);
    if Unsigned(desk', request) == {} {
      SameSigners(desk', WithRequest(desk', request,
          desk.requests[request].(status := RequestStatus.Completed, completedAt := Some(signedAt))));
    }
  }

  lemma SignedKeepsSignatures(desk: Desk, signatures: map<Id, Signature>, signer: Id, signedAt: nat, key: Key,
                              row: Request)
    requires SignaturesOk(desk, signatures) && signer in desk.signers && desk.signers[signer].status != Signed
    requires var r := desk.signers[signer].request;
             && r in desk.requests && !desk.signers[signer].revoked && row.sha == desk.requests[r].sha
    ensures var r := desk.signers[signer].request;
            SignaturesOk(WithRequest(SignedDesk(desk, signer, signedAt), r, row),
                         signatures[signer := Signature(r, desk.requests[r].sha, signedAt, key)])
  {
  }

  /** One more unpaid signature raises the count of its own tenant and of no other. */
  lemma UnpaidGrows(library: Library, desk: Desk, desk': Desk, unpaid: set<Id>, signer: Id, tenant: Id, t: Id)
    requires forall i :: TenantOf(library, desk, i) == TenantOf(library, desk', i)
    requires signer !in unpaid && TenantOf(library, desk, signer) == Some(tenant)
    ensures UnpaidOf(library, desk', unpaid, t) == UnpaidOf(library, desk, unpaid, t)
    ensures |UnpaidOf(library, desk', unpaid + {signer}, t)| ==
            |UnpaidOf(library, desk, unpaid, t)| + if t == tenant then 1 else 0
  {
    hide TenantOf;
    var before := UnpaidOf(library, desk, unpaid, t);
    if t == tenant {
      assert UnpaidOf(library, desk', unpaid + {signer}, t) == before + {signer};
    } else {
      assert UnpaidOf(library, desk', unpaid + {signer}, t) == before;
    }
  }

  lemma SignedKeepsQuota(library: Library, desk: Desk, desk': Desk, ledger: Ledger, ledger': Ledger, signer: Id,
                         tenant: Id, paid: bool)
    requires QuotaOk(library, desk, ledger) && signer !in ledger.signatures
    requires TenantOf(library, desk, signer) == Some(tenant)
    requires forall i :: TenantOf(library, desk, i) == TenantOf(library, desk', i)
    requires paid || AccountOf(ledger, tenant).used < AccountOf(ledger, tenant).limit
    requires ledger'.signatures.Keys == ledger.signatures.Keys + {signer}
    requires ledger'.accounts == Charged(ledger, tenant, paid)
    requires ledger'.unpaid == if paid then ledger.unpaid else ledger.unpaid + {signer}
    ensures QuotaOk(library, desk', ledger')
  {
    hide TenantOf, UnpaidOf;
    forall t
      ensures AccountOf(ledger', t).used == |UnpaidOf(library, desk', ledger'.unpaid, t)|
      ensures AccountOf(ledger', t).used <= AccountOf(ledger', t).limit == FREE_SIGNATURES
    {
      UnpaidGrows(library, desk, desk', ledger.unpaid, signer, tenant, t);
      assert AccountOf(ledger, t).used <= AccountOf(ledger, t).limit;
    }
  }

  lemma SignedKeepsTenants(library: Library, desk: Desk, signer: Id, signedAt: nat, request: Id, row: Request)
    requires signer in desk.signers && request in desk.requests && row.document == desk.requests[request].document
    ensures var desk' := WithRequest(SignedDesk(desk, signer, signedAt), request, row);
            forall i :: TenantOf(library, desk, i) == TenantOf(library, desk', i)
  {
  }

  lemma WithSignatureKeepsDesk(s: State, signer: Id, request: Id, signedAt: nat, paid: bool, key: Key)
    requires IndexesOk(s.desk) && CompletionOk(s.desk) && RequestsOk(s.library, s.desk.requests)
    requires signer in s.desk.signers && s.desk.signers[signer].request == request
        && s.desk.signers[signer].status != Signed
    requires request in s.desk.requests && s.desk.requests[request].status == Open
        && s.desk.requests[request].document in s.library.documents
    ensures var desk := WithSignature(s, signer, request, signedAt, paid, key).desk;
            IndexesOk(desk) && CompletionOk(desk) && RequestsOk(s.library, desk.requests)
  {
    hide RequestsOk, IndexesOk, CompletionOk;
    var desk' := SignedDesk(s.desk, signer, signedAt);
    var row := s.desk.requests[request].(status := RequestStatus.Completed, completedAt := Some(signedAt));
    SignedKeepsIndexes(s.desk, signer, signedAt);
    SignedKeepsCompletion(s.desk, signer, signedAt, request);
    RowKeepsIndexes(desk', request, row);
    CompletedKeepsRequests(s.library, s.desk.requests, request, row);
  }

  lemma CompletedKeepsRequests(library: Library, requests: map<Id, Request>, request: Id, row: Request)
    requires RequestsOk(library, requests) && request in requests && requests[request].status == Open
    requires row == requests[request].(status := row.status, completedAt := row.completedAt)
        && row.status in {Open, RequestStatus.Completed}
    ensures RequestsOk(library, requests[request := row])
  {
  }

  lemma WithSignatureKeepsAudit(s: State, signer: Id, request: Id, signedAt: nat, paid: bool, key: Key)
    requires RequestAuditOk(s.desk.requests, s.audit) && SignerAuditOk(s.desk.signers, s.audit)
    requires signer in s.desk.signers && s.desk.signers[signer].request == request
        && s.desk.signers[signer].status != Signed
    requires request in s.desk.requests && s.desk.requests[request].status == Open
        && s.desk.requests[request].document in s.library.documents
    ensures var s' := WithSignature(s, signer, request, signedAt, paid, key);
            RequestAuditOk(s'.desk.requests, s'.audit) && SignerAuditOk(s'.desk.signers, s'.audit)
  {
    hide RequestAuditOk, SignerAuditOk;
    var signed := Event(Some(request), SignatureCompleted, signer);
    var signers := s.desk.signers[signer := s.desk.signers[signer].(status := Signed, signedAt := Some(signedAt))];
    var row := s.desk.requests[request].(status := RequestStatus.Completed, completedAt := Some(signedAt));
    RowChangeAudit(s.desk.signers, s.audit, signer, signers[signer], SignatureCompleted);
    SignerEventKeepsRequests(s.desk.requests, s.audit, signed);
    StatusAudit(s.desk.requests, s.audit + [signed], request, row, RequestCompleted);
    RequestEventKeepsSigners(signers, s.audit + [signed], Event(Some(request), RequestCompleted, request));
  }

  lemma WithSignatureKeepsLedger(s: State, signer: Id, request: Id, signedAt: nat, paid: bool, key: Key)
    requires SignaturesOk(s.desk, s.ledger.signatures) && QuotaOk(s.library, s.desk, s.ledger)
    requires signer in s.desk.signers && s.desk.signers[signer].request == request
        && s.desk.signers[signer].status != Signed && !s.desk.signers[signer].revoked
    requires request in s.desk.requests && s.desk.requests[request].document in s.library.documents
    requires var tenant := s.library.documents[s.desk.requests[request].document].tenant;
             paid || AccountOf(s.ledger, tenant).used < AccountOf(s.ledger, tenant).limit
    ensures var s' := WithSignature(s, signer, request, signedAt, paid, key);
            SignaturesOk(s'.desk, s'.ledger.signatures) && QuotaOk(s.library, s'.desk, s'.ledger)
  {
    hide SignaturesOk, QuotaOk, TenantOf;
    var s' := WithSignature(s, signer, request, signedAt, paid, key);
    var tenant := s.library.documents[s.desk.requests[request].document].tenant;
    var row := s'.desk.requests[request];
    assert s'.desk == WithRequest(SignedDesk(s.desk, signer, signedAt), request, row);
    SignedKeepsSignatures(s.desk, s.ledger.signatures, signer, signedAt, key, row);
    UnsignedHasNoSignature(s.desk, s.ledger.signatures, signer);
    SignedKeepsTenants(s.library, s.desk, signer, signedAt, request, row);
    TenantOfSigner(s.library, s.desk, signer, request);
    SignedKeepsQuota(s.library, s.desk, s'.desk, s.ledger, s'.ledger, signer, tenant, paid);
  }

  lemma TenantOfSigner(library: Library, desk: Desk, signer: Id, request: Id)
    requires signer in desk.signers && desk.signers[signer].request == request && request in desk.requests
        && desk.requests[request].document in library.documents
    ensures TenantOf(library, desk, signer) == Some(library.documents[desk.requests[request].document].tenant)
  {
  }

  lemma UnsignedHasNoSignature(desk: Desk, signatures: map<Id, Signature>, signer: Id)
    requires SignaturesOk(desk, signatures) && signer in desk.signers && desk.signers[signer].status != Signed
    ensures signer !in signatures
  {
  }

  lemma SignKeepsInvariant(sha: Bytes -> Digest, s: State, token: Token, user: string, consent: bool, now: nat,
                           signedAt: nat, certificate: bool, represents: Gate, paid: bool, pdf: Gate, artifact: Bytes,
                           key: Key, fault: Fault)
    requires Invariant(sha, s) && NewKey(s, key)
    ensures Invariant(sha, Sign(sha, s, token, user, consent, now, signedAt, certificate, represents, paid, pdf,
        artifact, key, fault).state)
  {
    hide LibraryOk, RequestsOk, IndexesOk, CompletionOk, SignaturesOk, QuotaOk, RequestAuditOk, SignerAuditOk, NewKey,
        Unnamed, Commit;
    NewIsUnnamed(s, key);
    var access := Resolve(s, token, user, now);
    if access.Granted? {
      ResolvedSigner(s, token, user, now);
      var signer, request := access.signer, access.request;
      if consent && SignRefusal(sha, s, signer, request, certificate, represents, paid, pdf).None? {
        WithSignatureKeepsDesk(s, signer, request, signedAt, paid, key);
        WithSignatureKeepsAudit(s, signer, request, signedAt, paid, key);
        WithSignatureKeepsLedger(s, signer, request, signedAt, paid, key);
        UnnamedFits(sha, s.library, key, artifact);
        CommitKeepsInvariant(sha, s, WithSignature(s, signer, request, signedAt, paid, key), key, artifact, fault);
      }
    }
  }
}
