/** The main results about the signature workflow: what holds after any run of transactions. */
module WorkflowRuns {
  import opened Options
  import opened Workflow
  import opened WorkflowInvariant

  // ----- Runs -----

  /** One call of a public method, with everything the outside decides. */
  datatype Call =
    | Upload(document: Id, tenant: Id, content: Bytes, gate: Gate, key: Key, fault: Fault)
    | Revise(document: Id, content: Bytes, gate: Gate, key: Key, fault: Fault)
    | Delete(document: Id, gate: Gate, force: bool, rows: seq<Id>)
    | Request(request: Id, document: Id, expiresAt: nat, now: nat, gate: Gate)
    | Invite(signer: Id, request: Id, user: string, gate: Gate, role: Gate)
    | Link(request: Id, token: Token, gate: Gate)
    | Revoke(request: Id, signer: Id, gate: Gate)
    | OpenIt(request: Id, mode: Mode, gate: Gate, ready: Gate)
    | Cancel(request: Id, gate: Gate)
    | Look(token: Token, user: string, now: nat)
    | SignIt(token: Token, user: string, consent: bool, now: nat, signedAt: nat, certificate: bool,
             represents: Gate, paid: bool, pdf: Gate, artifact: Bytes, key: Key, fault: Fault)
    | Refuse(token: Token, user: string, now: nat)

  /** New ids, tokens and keys are new, and the query of `delete_document` returns the rows it asks for. */
  ghost predicate Possible(s: State, call: Call) {
    match call
    case Upload(document, _, _, _, key, _) => document !in s.library.documents && NewKey(s, key)
    case Revise(_, _, _, key, _) => NewKey(s, key)
    case Delete(document, _, _, rows) =>
      NoDuplicates(rows) && forall r :: r in rows <==> r in ActiveRequests(s, document)
    case Request(request, _, _, _, _) => request !in s.desk.requests
    case Invite(signer, _, _, _, _) => signer !in s.desk.signers
    case Link(_, token, _) => token !in s.desk.links
    case SignIt(_, _, _, _, _, _, _, _, _, _, key, _) => NewKey(s, key)
    case _ => true
  }

  ghost function Apply(sha: Bytes -> Digest, s: State, call: Call): Outcome
    requires Possible(s, call)
  {
    match call
    case Upload(document, tenant, content, gate, key, fault) =>
      CreateDocument(sha, s, document, tenant, content, gate, key, fault)
    case Revise(document, content, gate, key, fault) => AddVersion(sha, s, document, content, gate, key, fault)
    case Delete(document, gate, force, rows) => DeleteDocument(s, document, gate, force, rows)
    case Request(request, document, expiresAt, now, gate) => CreateRequest(s, request, document, expiresAt, now, gate)
    case Invite(signer, request, user, gate, role) => AddSigner(s, signer, request, user, gate, role)
    case Link(request, token, gate) => CreateLink(s, request, token, gate)
    case Revoke(request, signer, gate) => RevokeSignerLink(s, request, signer, gate)
    case OpenIt(request, mode, gate, ready) => OpenRequest(s, request, mode, gate, ready)
    case Cancel(request, gate) => CancelRequest(s, request, gate)
    case Look(token, user, now) => View(s, token, user, now)
    case SignIt(token, user, consent, now, signedAt, certificate, represents, paid, pdf, artifact, key, fault) =>
      Sign(sha, s, token, user, consent, now, signedAt, certificate, represents, paid, pdf, artifact, key, fault)
    case Refuse(token, user, now) => Decline(s, token, user, now)
  }

  ghost predicate Leads(sha: Bytes -> Digest, s: State, calls: seq<Call>, s': State)
    decreases |calls|
  {
    if calls == [] then s' == s
    else Possible(s, calls[0]) && Leads(sha, Apply(sha, s, calls[0]).state, calls[1..], s')
  }

  lemma ApplyKeepsInvariant(sha: Bytes -> Digest, s: State, call: Call)
    requires Invariant(sha, s) && Possible(s, call)
    ensures Invariant(sha, Apply(sha, s, call).state)
  {
    hide Invariant, CreateDocument, AddVersion, DeleteDocument, CreateRequest, AddSigner, CreateLink, RevokeSignerLink,
        OpenRequest, View, Sign, Decline;
    match call {
      case Upload(document, tenant, content, gate, key, fault) =>
        CreateDocumentKeepsInvariant(sha, s, document, tenant, content, gate, key, fault);
      case Revise(document, content, gate, key, fault) =>
        AddVersionKeepsInvariant(sha, s, document, content, gate, key, fault);
      case Delete(document, gate, force, rows) => DeleteDocumentKeepsInvariant(sha, s, document, gate, force, rows);
      case Request(request, document, expiresAt, now, gate) =>
        CreateRequestKeepsInvariant(sha, s, request, document, expiresAt, now, gate);
      case Invite(signer, request, user, gate, role) =>
        AddSignerKeepsInvariant(sha, s, signer, request, user, gate, role);
      case Link(request, token, gate) => CreateLinkKeepsInvariant(sha, s, request, token, gate);
      case Revoke(request, signer, gate) => RevokeSignerLinkKeepsInvariant(sha, s, request, signer, gate);
      case OpenIt(request, mode, gate, ready) => OpenRequestKeepsInvariant(sha, s, request, mode, gate, ready);
      case Cancel(request, _) =>
        if request in s.desk.requests && s.desk.requests[request].status in {Draft, Open} {
          CancelKeepsInvariant(sha, s, request);
        }
      case Look(token, user, now) => ViewKeepsInvariant(sha, s, token, user, now);
      case SignIt(token, user, consent, now, signedAt, certificate, represents, paid, pdf, artifact, key, fault) =>
        SignKeepsInvariant(sha, s, token, user, consent, now, signedAt, certificate, represents, paid, pdf, artifact,
            key, fault);
      case Refuse(token, user, now) => DeclineKeepsInvariant(sha, s, token, user, now);
    }
  }

  lemma {:induction false} RunKeepsInvariant(sha: Bytes -> Digest, s: State, calls: seq<Call>, s': State)
    requires Invariant(sha, s) && Leads(sha, s, calls, s')
    ensures Invariant(sha, s')
    decreases |calls|
  {
    hide Invariant, Apply;
    if calls != [] {
      ApplyKeepsInvariant(sha, s, calls[0]);
      RunKeepsInvariant(sha, Apply(sha, s, calls[0]).state, calls[1..], s');
    }
  }

  ghost predicate Reachable(sha: Bytes -> Digest, s: State) {
    exists calls :: Leads(sha, START, calls, s)
  }

  lemma ReachableInvariant(sha: Bytes -> Digest, s: State)
    requires Reachable(sha, s)
    ensures Invariant(sha, s)
  {
    hide Invariant;
    var calls :| Leads(sha, START, calls, s);
    StartInvariant(sha);
    RunKeepsInvariant(sha, START, calls, s);
  }

  // ----- Reading the statuses back from the audit -----

  function RequestRank(status: RequestStatus): nat {
    match status case Draft => 0 case Open => 1 case Cancelled => 2 case Completed => 2
  }

  /** The status an event of a request stands for. */
  function RequestMark(e: Event, request: Id): Option<RequestStatus> {
    if e.request != Some(request) || e.entity != request then None
    else
      match e.action
      case RequestCreated => Some(Draft)
      case RequestOpened => Some(Open)
      case RequestCancelled => Some(RequestStatus.Cancelled)
      case RequestCompleted => Some(RequestStatus.Completed)
      case _ => None
  }

  /** The highest-ranked status among the events, read in the order given. */
  function RecoverRequest(events: seq<Event>, request: Id): Option<RequestStatus> {
    if events == [] then None
    else
      var rest := RecoverRequest(events[1..], request);
      match RequestMark(events[0], request)
      case None => rest
      case Some(status) => if rest.Some? && RequestRank(status) <= RequestRank(rest.value) then rest else Some(status)
  }

  function SignerRank(status: SignerStatus): nat {
    match status case Pending => 0 case Viewed => 1 case Declined => 2 case Signed => 3
  }

  function SignerMark(e: Event, request: Id, signer: Id): Option<SignerStatus> {
    if e.request != Some(request) || e.entity != signer then None
    else
      match e.action
      case SignerLinkCreated => Some(Pending)
      case DocumentViewed => Some(Viewed)
      case SignatureDeclined => Some(SignerStatus.Declined)
      case SignatureCompleted => Some(Signed)
      case _ => None
  }

  function RecoverSigner(events: seq<Event>, request: Id, signer: Id): Option<SignerStatus> {
    if events == [] then None
    else
      var rest := RecoverSigner(events[1..], request, signer);
      match SignerMark(events[0], request, signer)
      case None => rest
      case Some(status) => if rest.Some? && SignerRank(status) <= SignerRank(rest.value) then rest else Some(status)
  }

  /** What is recovered is marked by some event, and nothing marked outranks it. */
  lemma {:induction false} RecoveredRequestIsHighest(events: seq<Event>, request: Id)
    ensures var found := RecoverRequest(events, request);
            && (found.Some? ==> exists e :: e in events && RequestMark(e, request) == found)
            && (forall e | e in events && RequestMark(e, request).Some? ::
                  found.Some? && RequestRank(RequestMark(e, request).value) <= RequestRank(found.value))
  {
    if events != [] {
      RecoveredRequestIsHighest(events[1..], request);
      assert forall e | e in events :: e == events[0] || e in events[1..];
      assert events[0] in events;
    }
  }

  lemma {:induction false} RecoveredSignerIsHighest(events: seq<Event>, request: Id, signer: Id)
    ensures var found := RecoverSigner(events, request, signer);
            && (found.Some? ==> exists e :: e in events && SignerMark(e, request, signer) == found)
            && (forall e | e in events && SignerMark(e, request, signer).Some? ::
                  found.Some? && SignerRank(SignerMark(e, request, signer).value) <= SignerRank(found.value))
  {
    if events != [] {
      RecoveredSignerIsHighest(events[1..], request, signer);
      assert forall e | e in events :: e == events[0] || e in events[1..];
      assert events[0] in events;
    }
  }

  lemma RequestRecovered(requests: map<Id, Workflow.Request>, audit: seq<Event>, events: seq<Event>, request: Id)
    requires RequestAuditOk(requests, audit) && request in requests
    requires forall e :: e in events <==> e in audit
    ensures RecoverRequest(events, request) == Some(requests[request].status)
    ensures !(Event(Some(request), RequestCompleted, request) in events
        && Event(Some(request), RequestCancelled, request) in events)
  {
    RecoveredRequestIsHighest(events, request);
    var created, open := Event(Some(request), RequestCreated, request), Event(Some(request), RequestOpened, request);
    var cancelled, completed := Event(Some(request), RequestCancelled, request),
        Event(Some(request), RequestCompleted, request);
    assert RequestEvent(audit, request, RequestCreated) && RequestMark(created, request) == Some(Draft);
    assert RequestMark(open, request) == Some(Open);
    assert RequestMark(cancelled, request) == Some(RequestStatus.Cancelled)
        && RequestMark(completed, request) == Some(RequestStatus.Completed);
    var e :| e in events && RequestMark(e, request) == RecoverRequest(events, request);
    assert e == Event(Some(request), e.action, request);
    assert RequestEvent(audit, request, e.action);
  }

  lemma SignerRecovered(signers: map<Id, Signer>, audit: seq<Event>, events: seq<Event>, signer: Id)
    requires SignerAuditOk(signers, audit) && signer in signers
    requires forall e :: e in events <==> e in audit
    ensures RecoverSigner(events, signers[signer].request, signer) == Some(signers[signer].status)
  {
    var request := signers[signer].request;
    RecoveredSignerIsHighest(events, request, signer);
    var created, viewed := Event(Some(request), SignerLinkCreated, signer),
        Event(Some(request), DocumentViewed, signer);
    var declined, signed := Event(Some(request), SignatureDeclined, signer),
        Event(Some(request), SignatureCompleted, signer);
    assert SignerEvent(signers, audit, signer, SignerLinkCreated)
        && SignerMark(created, request, signer) == Some(Pending);
    assert SignerMark(viewed, request, signer) == Some(Viewed)
        && SignerMark(declined, request, signer) == Some(SignerStatus.Declined);
    assert SignerMark(signed, request, signer) == Some(Signed);
    var e :| e in events && SignerMark(e, request, signer) == RecoverSigner(events, request, signer);
    assert e == Event(Some(request), e.action, signer);
    assert SignerEvent(signers, audit, signer, e.action);
  }

  /**
   In every reachable state the audit tells the whole story: from its events, read in any order,
   the highest-ranked one gives the status of every request and of every signer, and no request is
   both completed and cancelled.
   */
  lemma AuditTellsStatuses(sha: Bytes -> Digest, s: State, events: seq<Event>)
    requires Reachable(sha, s) && multiset(events) == multiset(s.audit)
    ensures forall r | r in s.desk.requests :: RecoverRequest(events, r) == Some(s.desk.requests[r].status)
    ensures forall i | i in s.desk.signers ::
              RecoverSigner(events, s.desk.signers[i].request, i) == Some(s.desk.signers[i].status)
    ensures forall r | r in s.desk.requests ::
              !(Event(Some(r), RequestCompleted, r) in s.audit && Event(Some(r), RequestCancelled, r) in s.audit)
  {
    hide LibraryOk, RequestsOk, IndexesOk, CompletionOk, SignaturesOk, QuotaOk, RequestAuditOk, SignerAuditOk,
        RecoverRequest, RecoverSigner;
    ReachableInvariant(sha, s);
    forall e ensures e in events <==> e in s.audit {
      assert e in events <==> e in multiset(events);
      assert e in s.audit <==> e in multiset(s.audit);
    }
    forall r | r in s.desk.requests
      ensures RecoverRequest(events, r) == Some(s.desk.requests[r].status)
      ensures !(Event(Some(r), RequestCompleted, r) in s.audit && Event(Some(r), RequestCancelled, r) in s.audit)
    {
      RequestRecovered(s.desk.requests, s.audit, events, r);
    }
    forall i | i in s.desk.signers
      ensures RecoverSigner(events, s.desk.signers[i].request, i) == Some(s.desk.signers[i].status)
    {
      SignerRecovered(s.desk.signers, s.audit, events, i);
    }
  }

  // ----- Completion, freezing, quota -----

  lemma NobodyUnsigned(desk: Desk, request: Id)
    ensures Unsigned(desk, request) == {} <==> forall i | i in SignersOf(desk, request) ::
        desk.signers[i].status == Signed
  {
    if Unsigned(desk, request) == {} {
      forall i | i in SignersOf(desk, request) ensures desk.signers[i].status == Signed {
        assert i !in Unsigned(desk, request);
      }
    }
  }

  lemma SignatureRows(desk: Desk, signatures: map<Id, Signature>, request: Id)
    requires SignaturesOk(desk, signatures)
    ensures (set i | i in signatures && signatures[i].request == request)
            == (set i | i in SignersOf(desk, request) && desk.signers[i].status == Signed)
    ensures forall i | i in SignersOf(desk, request) && desk.signers[i].revoked :: desk.signers[i].status != Signed
  {
  }

  /**
   A request is completed exactly when it has a signer and all have signed, its signature rows are
   its signed signers, and with a revoked signer it is not completed.
   */
  lemma CompletedWhenEverybodySigned(sha: Bytes -> Digest, s: State, request: Id)
    requires Reachable(sha, s) && request in s.desk.requests
    ensures s.desk.requests[request].status == RequestStatus.Completed <==>
            SignersOf(s.desk, request) != {} && forall i | i in SignersOf(s.desk, request) ::
                s.desk.signers[i].status == Signed
    ensures (set i | i in s.ledger.signatures && s.ledger.signatures[i].request == request)
            == (set i | i in SignersOf(s.desk, request) && s.desk.signers[i].status == Signed)
    ensures (exists i :: i in SignersOf(s.desk, request) && s.desk.signers[i].revoked)
        ==> s.desk.requests[request].status != RequestStatus.Completed
  {
    hide LibraryOk, RequestsOk, IndexesOk, SignaturesOk, QuotaOk, RequestAuditOk, SignerAuditOk, Unsigned;
    ReachableInvariant(sha, s);
    NobodyUnsigned(s.desk, request);
    SignatureRows(s.desk, s.ledger.signatures, request);
  }

  /** The signature counter of a tenant is the number of its unpaid signatures, which are at most five. */
  lemma CounterIsUnpaidSignatures(sha: Bytes -> Digest, s: State, tenant: Id)
    requires Reachable(sha, s)
    ensures var account := AccountOf(s.ledger, tenant);
            account.used == |UnpaidOf(s.library, s.desk, s.ledger.unpaid, tenant)| && account.used <= account.limit == 5
    ensures s.ledger.unpaid <= s.ledger.signatures.Keys
  {
    hide LibraryOk, RequestsOk, IndexesOk, CompletionOk, SignaturesOk, RequestAuditOk, SignerAuditOk;
    ReachableInvariant(sha, s);
  }

  /** When a signer may sign: nothing about hashes, other signers or the document being there. */
  ghost predicate MaySign(s: State, signer: Id, request: Id, certificate: bool, represents: Gate, paid: bool, pdf: Gate)
    requires signer in s.desk.signers && request in s.desk.requests
        && s.desk.requests[request].document in s.library.documents
  {
    var account := AccountOf(s.ledger, s.library.documents[s.desk.requests[request].document].tenant);
    && s.desk.signers[signer].status != Signed
    && certificate == (s.desk.requests[request].mode == SerproId)
    && (certificate ==> s.desk.signers[signer].status != SignerStatus.Declined)
    && represents.None? && pdf.None?
    && (paid || account.used < account.limit)
  }

  lemma OnlySignerLeft(desk: Desk, signer: Id, request: Id)
    requires CompletionOk(desk) && request in desk.requests && desk.requests[request].status == Open
        && desk.requests[request].mode == SerproId
    requires signer in desk.signers && desk.signers[signer].request == request && desk.signers[signer].status != Signed
    ensures |Unsigned(desk, request)| == 1
  {
    var all := SignersOf(desk, request);
    var others := all - {signer};
    assert signer in all && all == others + {signer};
    assert |all| == |others| + 1;
    assert others == {};
    assert Unsigned(desk, request) == {signer};
  }

  ghost function FrozenKey(s: State, request: Id): Key
    requires request in s.desk.requests
        && (s.desk.requests[request].document, s.desk.requests[request].version) in s.library.versions
  {
    s.library.versions[(s.desk.requests[request].document, s.desk.requests[request].version)].key
  }

  /**
   In a reachable state the document, version, hash and final-signature checks inside `sign` never
   fail: once the link resolves, signing succeeds exactly under `MaySign` while the frozen bytes are
   in the store. In particular a declined signer of an open evidence request may still sign.
   */
  lemma SignChecksNeverFail(sha: Bytes -> Digest, s: State, token: Token, user: string, consent: bool, now: nat,
                            signedAt: nat, certificate: bool, represents: Gate, paid: bool, pdf: Gate, artifact: Bytes,
                            key: Key)
    requires Reachable(sha, s)
    ensures var access := Resolve(s, token, user, now);
            access.Granted? ==>
              && access.signer in s.desk.signers && access.request in s.desk.requests
              && s.desk.requests[access.request].document in s.library.documents
              && (s.desk.requests[access.request].document, s.desk.requests[access.request].version)
                  in s.library.versions
    ensures var access := Resolve(s, token, user, now);
            Sign(sha, s, token, user, consent, now, signedAt, certificate, represents, paid, pdf, artifact, key,
                NoFault).Done? <==>
              consent && access.Granted? && MaySign(s, access.signer, access.request, certificate, represents, paid,
                  pdf) && FrozenKey(s, access.request) in s.library.stored
  {
    hide CompletionOk, SignaturesOk, QuotaOk, RequestAuditOk, SignerAuditOk, Unsigned;
    ReachableInvariant(sha, s);
    var access := Resolve(s, token, user, now);
    if access.Granted? {
      ResolvedSigner(s, token, user, now);
      if s.desk.requests[access.request].mode == SerproId && s.desk.signers[access.signer].status != Signed {
        OnlySignerLeft(s.desk, access.signer, access.request);
      }
    }
  }

  // ----- What never changes -----

  /** Versions, the bytes in the store and the tenant of a document are for ever; heads only move forward. */
  ghost predicate LibraryPermanent(l: Library, l': Library) {
    && (forall d | d in l.documents ::
          && d in l'.documents && l'.documents[d].tenant == l.documents[d].tenant
          && l.documents[d].version <= l'.documents[d].version && (l.documents[d].deleted ==> l'.documents[d].deleted))
    && (forall d, n | (d, n) in l.versions :: (d, n) in l'.versions && l'.versions[(d, n)] == l.versions[(d, n)])
    && (forall k | k in l.stored :: k in l'.stored && l'.stored[k] == l.stored[k])
  }

  ghost predicate Closed(status: RequestStatus) {
    status == RequestStatus.Completed || status == RequestStatus.Cancelled
  }

  /** What a request froze, a closed request and a signed signer are for ever; a draft is never gone back to. */
  ghost predicate RequestsPermanent(d: Desk, d': Desk) {
    forall r | r in d.requests ::
      && r in d'.requests
      && d'.requests[r].document == d.requests[r].document && d'.requests[r].version == d.requests[r].version
      && d'.requests[r].sha == d.requests[r].sha && d'.requests[r].expiresAt == d.requests[r].expiresAt
      && (Closed(d.requests[r].status) ==> d'.requests[r] == d.requests[r])
      && (d.requests[r].status != Draft ==> d'.requests[r].status != Draft && d'.requests[r].mode == d.requests[r].mode)
  }

  ghost predicate SignersPermanent(d: Desk, d': Desk) {
    && (forall i | i in d.signers ::
          && i in d'.signers && d'.signers[i].request == d.signers[i].request && d'.signers[i].user == d.signers[i].user
          && (d.signers[i].status == Signed ==> d'.signers[i] == d.signers[i])
          && (d.signers[i].revoked ==> d'.signers[i].revoked))
    && (forall i | i in d'.signers && d'.signers[i].request in d.requests
          && d.requests[d'.signers[i].request].status != Draft :: i in d.signers)
  }

  ghost predicate Permanent(s: State, s': State) {
    && LibraryPermanent(s.library, s'.library)
    && RequestsPermanent(s.desk, s'.desk)
    && SignersPermanent(s.desk, s'.desk)
    && (forall i | i in s.ledger.signatures :: i in s'.ledger.signatures
          && s'.ledger.signatures[i] == s.ledger.signatures[i])
    && s.audit <= s'.audit
  }

  lemma PermanentTransitive(a: State, b: State, c: State)
    requires Permanent(a, b) && Permanent(b, c)
    ensures Permanent(a, c)
  {
  }

  lemma SamePermanent(s: State)
    ensures LibraryPermanent(s.library, s.library) && RequestsPermanent(s.desk, s.desk)
        && SignersPermanent(s.desk, s.desk)
    ensures Permanent(s, s)
  {
  }

  lemma StoredIsPermanent(library: Library, key: Key, content: Bytes)
    requires key !in library.stored
    ensures LibraryPermanent(library, library.(stored := library.stored[key := content]))
  {
  }

  lemma VersionIsPermanent(sha: Bytes -> Digest, library: Library, document: Id, item: Document)
    requires LibraryOk(sha, library) && NextVersion(library, document, item)
    requires document in library.documents ==> !library.documents[document].deleted
    ensures LibraryPermanent(library, NewVersion(library, document, item))
  {
  }

  lemma RowIsPermanent(desk: Desk, request: Id, row: Workflow.Request)
    requires
      || request !in desk.requests
      || (var before := desk.requests[request];
          && !Closed(before.status) && row.document == before.document && row.version == before.version
                && row.sha == before.sha && row.expiresAt == before.expiresAt
          && (before.status != Draft ==> row.status != Draft && row.mode == before.mode))
    ensures RequestsPermanent(desk, WithRequest(desk, request, row))
        && SignersPermanent(desk, WithRequest(desk, request, row))
  {
  }

  lemma SignerIsPermanent(desk: Desk, desk': Desk, signer: Id, row: Signer)
    requires desk'.requests == desk.requests && desk'.signers == desk.signers[signer := row]
    requires
      || (signer !in desk.signers && row.request in desk.requests && desk.requests[row.request].status == Draft)
      || (signer in desk.signers && desk.signers[signer].status != Signed && row.request == desk.signers[signer].request
          && row.user == desk.signers[signer].user && (desk.signers[signer].revoked ==> row.revoked))
    ensures RequestsPermanent(desk, desk') && SignersPermanent(desk, desk')
  {
  }

  lemma StoreIsPermanent(s: State, key: Key, content: Bytes)
    requires key !in s.library.stored
    ensures Permanent(s, StoreObject(s, key, content))
  {
    hide LibraryPermanent, RequestsPermanent, SignersPermanent;
    SamePermanent(s);
    StoredIsPermanent(s.library, key, content);
  }

  /** Wherever a transaction breaks, what it leaves has lost nothing. */
  lemma CommitIsPermanent(s: State, after: State, key: Key, content: Bytes, fault: Fault)
    requires Permanent(s, after) && key !in s.library.stored && after.library.stored == s.library.stored
    ensures Permanent(s, Commit(s, after, key, content, fault).state)
  {
    hide Permanent;
    SamePermanent(s);
    StoreIsPermanent(s, key, if fault.TornPut? then fault.partial else content);
    StoreIsPermanent(after, key, content);
    PermanentTransitive(s, after, StoreObject(after, key, content));
  }

  lemma UploadIsPermanent(sha: Bytes -> Digest, s: State, document: Id, tenant: Id, content: Bytes, gate: Gate,
                          key: Key, fault: Fault)
    requires LibraryOk(sha, s.library) && document !in s.library.documents && NewKey(s, key)
    ensures Permanent(s, CreateDocument(sha, s, document, tenant, content, gate, key, fault).state)
  {
    hide LibraryOk, LibraryPermanent, RequestsPermanent, SignersPermanent, Commit, Unnamed, Referenced;
    SamePermanent(s);
    NewIsUnnamed(s, key);
    VersionIsPermanent(sha, s.library, document, Document(tenant, 1, sha(content), key, false));
    CommitIsPermanent(s, WithDocument(sha, s, document, tenant, content, key), key, content, fault);
  }

  lemma ReviseIsPermanent(sha: Bytes -> Digest, s: State, document: Id, content: Bytes, gate: Gate, key: Key,
                          fault: Fault)
    requires LibraryOk(sha, s.library) && NewKey(s, key)
    ensures Permanent(s, AddVersion(sha, s, document, content, gate, key, fault).state)
  {
    hide LibraryOk, LibraryPermanent, RequestsPermanent, SignersPermanent, Commit, Unnamed, Referenced;
    SamePermanent(s);
    NewIsUnnamed(s, key);
    if LiveDocument(s, document) {
      var item := s.library.documents[document];
      VersionIsPermanent(sha, s.library, document, item.(version := item.version + 1, sha := sha(content), key := key));
      CommitIsPermanent(s, WithVersion(sha, s, document, content, key), key, content, fault);
    }
  }

  lemma RequestCallsPermanent(sha: Bytes -> Digest, s: State, call: Call)
    requires Possible(s, call) && (call.Request? || call.OpenIt? || call.Cancel?)
    ensures Permanent(s, Apply(sha, s, call).state)
  {
    hide LibraryPermanent, RequestsPermanent, SignersPermanent;
    SamePermanent(s);
    var outcome := Apply(sha, s, call);
    if outcome.Done? {
      RowIsPermanent(s.desk, call.request, outcome.state.desk.requests[call.request]);
    }
  }

  lemma LinkIsPermanent(s: State, request: Id, token: Token, gate: Gate)
    ensures Permanent(s, CreateLink(s, request, token, gate).state)
  {
    SamePermanent(s);
  }

  lemma SignerCallsPermanent(sha: Bytes -> Digest, s: State, call: Call)
    requires Possible(s, call) && (call.Invite? || call.Revoke?)
    ensures Permanent(s, Apply(sha, s, call).state)
  {
    hide LibraryPermanent, RequestsPermanent, SignersPermanent;
    SamePermanent(s);
    var outcome := Apply(sha, s, call);
    if outcome.Done? && outcome.state != s {
      SignerIsPermanent(s.desk, outcome.state.desk, call.signer, outcome.state.desk.signers[call.signer]);
    }
  }

  lemma LinkCallsPermanent(sha: Bytes -> Digest, s: State, call: Call)
    requires IndexesOk(s.desk) && Possible(s, call) && (call.Look? || call.Refuse?)
    ensures Permanent(s, Apply(sha, s, call).state)
  {
    hide IndexesOk, LibraryPermanent, RequestsPermanent, SignersPermanent;
    SamePermanent(s);
    var access := Resolve(s, call.token, call.user, call.now);
    if access.Granted? {
      ResolvedSigner(s, call.token, call.user, call.now);
      var outcome := Apply(sha, s, call);
      if outcome.Done? && outcome.state != s {
        SignerIsPermanent(s.desk, outcome.state.desk, access.signer, outcome.state.desk.signers[access.signer]);
      }
    }
  }

  lemma WithSignatureIsPermanent(s: State, signer: Id, request: Id, signedAt: nat, paid: bool, key: Key)
    requires signer in s.desk.signers && s.desk.signers[signer].request == request
        && s.desk.signers[signer].status != Signed
    requires request in s.desk.requests && s.desk.requests[request].status == Open
        && s.desk.requests[request].document in s.library.documents
    requires signer !in s.ledger.signatures
    ensures Permanent(s, WithSignature(s, signer, request, signedAt, paid, key))
  {
    hide LibraryPermanent, RequestsPermanent, SignersPermanent;
    SamePermanent(s);
    var middle := s.(desk := SignedDesk(s.desk, signer, signedAt));
    var after := WithSignature(s, signer, request, signedAt, paid, key);
    SignerIsPermanent(s.desk, middle.desk, signer, middle.desk.signers[signer]);
    RowIsPermanent(middle.desk, request, s.desk.requests[request].(status := RequestStatus.Completed,
        completedAt := Some(signedAt)));
    DeskTransitive(s.desk, middle.desk, after.desk);
  }

  lemma DeskTransitive(a: Desk, b: Desk, c: Desk)
    ensures RequestsPermanent(a, b) && RequestsPermanent(b, c) ==> RequestsPermanent(a, c)
    ensures RequestsPermanent(a, b) && SignersPermanent(a, b) && SignersPermanent(b, c) ==> SignersPermanent(a, c)
  {
  }

  lemma NotRefused(sha: Bytes -> Digest, s: State, signer: Id, request: Id, certificate: bool, represents: Gate,
                   paid: bool, pdf: Gate)
    requires signer in s.desk.signers && request in s.desk.requests
    requires SignRefusal(sha, s, signer, request, certificate, represents, paid, pdf).None?
    ensures s.desk.signers[signer].status != Signed && s.desk.requests[request].document in s.library.documents
  {
  }

  lemma SigningIsPermanent(sha: Bytes -> Digest, s: State, call: Call)
    requires IndexesOk(s.desk) && SignaturesOk(s.desk, s.ledger.signatures) && Possible(s, call) && call.SignIt?
    ensures Permanent(s, Apply(sha, s, call).state)
  {
    hide IndexesOk, SignaturesOk, LibraryPermanent, RequestsPermanent, SignersPermanent, Permanent, WithSignature,
        Commit, Resolve, SignRefusal, Referenced;
    SamePermanent(s);
    var access := Resolve(s, call.token, call.user, call.now);
    if call.consent && access.Granted? {
      ResolvedSigner(s, call.token, call.user, call.now);
      if SignRefusal(sha, s, access.signer, access.request, call.certificate, call.represents, call.paid,
          call.pdf).None? {
        NotRefused(sha, s, access.signer, access.request, call.certificate, call.represents, call.paid, call.pdf);
        UnsignedHasNoSignature(s.desk, s.ledger.signatures, access.signer);
        WithSignatureIsPermanent(s, access.signer, access.request, call.signedAt, call.paid, call.key);
        SignatureStoresNothing(s, access.signer, access.request, call.signedAt, call.paid, call.key);
        var after := WithSignature(s, access.signer, access.request, call.signedAt, call.paid, call.key);
        CommitIsPermanent(s, after, call.key, call.artifact, call.fault);
      }
    }
  }

  lemma SignatureStoresNothing(s: State, signer: Id, request: Id, signedAt: nat, paid: bool, key: Key)
    requires signer in s.desk.signers && request in s.desk.requests
        && s.desk.requests[request].document in s.library.documents
    ensures WithSignature(s, signer, request, signedAt, paid, key).library == s.library
  {
  }

  lemma CancelledArePermanent(desk: Desk, desk': Desk, rows: seq<Id>)
    requires forall r | r in rows :: r in desk.requests && !Closed(desk.requests[r].status)
    requires desk' == desk.(requests := map r | r in desk.requests ::
                              if r in rows then desk.requests[r].(status := RequestStatus.Cancelled)
                                  else desk.requests[r])
    ensures RequestsPermanent(desk, desk') && SignersPermanent(desk, desk')
  {
  }

  lemma DeletedIsPermanent(library: Library, document: Id)
    requires document in library.documents
    ensures var item := library.documents[document].(deleted := true);
            LibraryPermanent(library, library.(documents := library.documents[document := item]))
  {
  }

  lemma DeletingIsPermanent(sha: Bytes -> Digest, s: State, call: Call)
    requires Invariant(sha, s) && Possible(s, call) && call.Delete?
    ensures Permanent(s, Apply(sha, s, call).state)
  {
    hide Invariant, CancelAll, LibraryPermanent, RequestsPermanent, SignersPermanent;
    SamePermanent(s);
    if Apply(sha, s, call).Done? {
      CancelAllKeepsInvariant(sha, s, call.rows);
      CancelledArePermanent(s.desk, CancelAll(s, call.rows).desk, call.rows);
      DeletedIsPermanent(s.library, call.document);
    }
  }

  lemma ApplyIsPermanent(sha: Bytes -> Digest, s: State, call: Call)
    requires Invariant(sha, s) && Possible(s, call)
    ensures Permanent(s, Apply(sha, s, call).state)
  {
    hide LibraryOk, RequestsOk, IndexesOk, CompletionOk, SignaturesOk, QuotaOk, RequestAuditOk, SignerAuditOk,
        Permanent;
    hide CreateDocument, AddVersion, DeleteDocument, CreateRequest, AddSigner, CreateLink, RevokeSignerLink,
        OpenRequest, CancelRequest, View, Sign, Decline;
    if call.Upload? {
      UploadIsPermanent(sha, s, call.document, call.tenant, call.content, call.gate, call.key, call.fault);
    } else if call.Revise? {
      ReviseIsPermanent(sha, s, call.document, call.content, call.gate, call.key, call.fault);
    } else if call.Link? {
      LinkIsPermanent(s, call.request, call.token, call.gate);
    } else if call.Request? || call.OpenIt? || call.Cancel? {
      RequestCallsPermanent(sha, s, call);
    } else if call.Invite? || call.Revoke? {
      SignerCallsPermanent(sha, s, call);
    } else if call.Look? || call.Refuse? {
      LinkCallsPermanent(sha, s, call);
    } else if call.SignIt? {
      SigningIsPermanent(sha, s, call);
    } else {
      DeletingIsPermanent(sha, s, call);
    }
  }

  lemma {:induction false} RunIsPermanent(sha: Bytes -> Digest, s: State, calls: seq<Call>, s': State)
    requires Invariant(sha, s) && Leads(sha, s, calls, s')
    ensures Permanent(s, s')
    decreases |calls|
  {
    hide Invariant, Apply, Possible, LibraryPermanent, RequestsPermanent, SignersPermanent;
    if calls == [] {
      SamePermanent(s);
    } else {
      var next := Apply(sha, s, calls[0]).state;
      ApplyIsPermanent(sha, s, calls[0]);
      ApplyKeepsInvariant(sha, s, calls[0]);
      RunIsPermanent(sha, next, calls[1..], s');
      PermanentTransitive(s, next, s');
    }
  }

  /**
   Whatever runs later, the records of a reachable state stay: versions and their bytes, signatures,
   audit events, closed requests, signed signers and revocations; the signers of a request that has
   left the draft are fixed; and a request with a signer revoked before signing is never completed.
   */
  lemma RecordsArePermanent(sha: Bytes -> Digest, s: State, calls: seq<Call>, s': State)
    requires Reachable(sha, s) && Leads(sha, s, calls, s')
    ensures Permanent(s, s')
    ensures forall r | r in s.desk.requests && s.desk.requests[r].status != Draft ::
        SignersOf(s'.desk, r) == SignersOf(s.desk, r)
    ensures forall i | i in s.desk.signers && s.desk.signers[i].revoked ::
              s.desk.signers[i].request in s'.desk.requests
                  && s'.desk.requests[s.desk.signers[i].request].status != RequestStatus.Completed
  {
    hide LibraryOk, RequestsOk, SignaturesOk, CompletionOk, QuotaOk, RequestAuditOk, SignerAuditOk, LibraryPermanent;
    ReachableInvariant(sha, s);
    RunKeepsInvariant(sha, s, calls, s');
    RunIsPermanent(sha, s, calls, s');
    forall i | i in s.desk.signers && s.desk.signers[i].revoked
      ensures s.desk.signers[i].request in s'.desk.requests
          && s'.desk.requests[s.desk.signers[i].request].status != RequestStatus.Completed
    {
      RevokedBlocks(s'.desk, s'.ledger.signatures, i);
    }
  }

  lemma RevokedBlocks(desk: Desk, signatures: map<Id, Signature>, signer: Id)
    requires IndexesOk(desk) && CompletionOk(desk) && SignaturesOk(desk, signatures)
    requires signer in desk.signers && desk.signers[signer].revoked
    ensures desk.signers[signer].request in desk.requests
        && desk.requests[desk.signers[signer].request].status != RequestStatus.Completed
  {
    assert signer in SignersOf(desk, desk.signers[signer].request);
    assert signer in Unsigned(desk, desk.signers[signer].request);
  }

  // ----- What is given once and kept -----

  /** What `get_content` answers for a version it answers for ever, until the document is deleted. */
  lemma ContentStays(sha: Bytes -> Digest, s: State, calls: seq<Call>, s': State, document: Id, number: nat)
    requires Reachable(sha, s) && Leads(sha, s, calls, s') && GetContent(sha, s, document, number).Some?
    ensures GetContent(sha, s', document, number)
            == if LiveDocument(s', document) then GetContent(sha, s, document, number) else None
  {
    hide Invariant, RequestsPermanent, SignersPermanent, Leads, Reachable;
    ReachableInvariant(sha, s);
    RunIsPermanent(sha, s, calls, s');
  }

  /** The mode a request is opened with is its mode for ever, and it is never a draft again. */
  lemma OpenedModeStays(sha: Bytes -> Digest, s: State, request: Id, mode: Mode, gate: Gate, ready: Gate,
                        calls: seq<Call>, s': State)
    requires Reachable(sha, s) && OpenRequest(s, request, mode, gate, ready).Done?
    requires Leads(sha, OpenRequest(s, request, mode, gate, ready).state, calls, s')
    ensures request in s'.desk.requests
    ensures s'.desk.requests[request].mode == mode && s'.desk.requests[request].status != Draft
  {
    hide Invariant, LibraryPermanent, SignersPermanent, Leads, Reachable;
    ReachableInvariant(sha, s);
    OpenRequestKeepsInvariant(sha, s, request, mode, gate, ready);
    RunIsPermanent(sha, OpenRequest(s, request, mode, gate, ready).state, calls, s');
  }

  /**
   A revocation is final: whatever runs later, the signer stays revoked and unsigned, no link grants
   access to that signer, and every link of the request answers the invited user with 410.
   */
  lemma RevocationIsFinal(sha: Bytes -> Digest, s: State, request: Id, signer: Id, gate: Gate, calls: seq<Call>,
                          s': State)
    requires Reachable(sha, s) && RevokeSignerLink(s, request, signer, gate).Done?
    requires Leads(sha, RevokeSignerLink(s, request, signer, gate).state, calls, s')
    ensures signer in s'.desk.signers && s'.desk.signers[signer].revoked
    ensures s'.desk.signers[signer].status != Signed && signer !in s'.ledger.signatures
    ensures forall token, user, now, r :: Resolve(s', token, user, now) != Granted(signer, r)
    ensures forall token, now | token in s'.desk.links && s'.desk.links[token] == request ::
              Resolve(s', token, s'.desk.signers[signer].user, now) == Refused(410)
  {
    hide LibraryOk, RequestsOk, CompletionOk, QuotaOk, RequestAuditOk, SignerAuditOk, LibraryPermanent,
        RequestsPermanent, Leads, Reachable;
    var revoked := RevokeSignerLink(s, request, signer, gate).state;
    ReachableInvariant(sha, s);
    RevokeSignerLinkKeepsInvariant(sha, s, request, signer, gate);
    RunKeepsInvariant(sha, revoked, calls, s');
    RunIsPermanent(sha, revoked, calls, s');
    RevokedRow(s, request, signer, gate);
    RevokedIsRefused(s'.desk, s'.ledger.signatures, s', signer);
  }

  lemma RevokedRow(s: State, request: Id, signer: Id, gate: Gate)
    requires RevokeSignerLink(s, request, signer, gate).Done?
    ensures var s' := RevokeSignerLink(s, request, signer, gate).state;
            && signer in s'.desk.signers && s'.desk.signers[signer].revoked
            && s'.desk.signers[signer].request == request
  {
  }

  lemma RevokedIsRefused(desk: Desk, signatures: map<Id, Signature>, s: State, signer: Id)
    requires desk == s.desk && IndexesOk(desk) && SignaturesOk(desk, signatures)
    requires signer in desk.signers && desk.signers[signer].revoked
    ensures desk.signers[signer].status != Signed && signer !in signatures
    ensures forall token, user, now, r :: Resolve(s, token, user, now) != Granted(signer, r)
    ensures forall token, now | token in desk.links && desk.links[token] == desk.signers[signer].request ::
              Resolve(s, token, desk.signers[signer].user, now) == Refused(410)
  {
  }

  // ----- When a signature was made -----

  /** The call that made a signature: consent given, the link resolved before the expiry, and the rows written. */
  ghost predicate MadeBy(desk: Desk, signature: Signature, call: Call) {
    && call.SignIt? && call.consent && TakesEffect(call.fault)
    && signature.signedAt == call.signedAt && signature.artifact == call.key
    && signature.request in desk.requests && call.now < desk.requests[signature.request].expiresAt
  }

  lemma SignMakesOne(sha: Bytes -> Digest, s: State, call: Call, signer: Id)
    requires IndexesOk(s.desk) && Possible(s, call) && call.SignIt? && signer !in s.ledger.signatures
        && signer in Apply(sha, s, call).state.ledger.signatures
    ensures var s' := Apply(sha, s, call).state; MadeBy(s'.desk, s'.ledger.signatures[signer], call)
  {
    hide IndexesOk, Referenced, Resolve, SignRefusal, Unsigned, Charged;
    var access := Resolve(s, call.token, call.user, call.now);
    if access.Granted? {
      ResolvedSigner(s, call.token, call.user, call.now);
    }
  }

  lemma OthersMakeNone(sha: Bytes -> Digest, s: State, call: Call)
    requires Invariant(sha, s) && Possible(s, call) && !call.SignIt?
    ensures Apply(sha, s, call).state.ledger == s.ledger
  {
    hide Invariant, Referenced, Resolve, SignersOf, Relinked, CancelAll;
    if call.Delete? && Apply(sha, s, call).Done? {
      CancelAllKeepsInvariant(sha, s, call.rows);
    }
  }

  lemma InvariantIndexes(sha: Bytes -> Digest, s: State)
    requires Invariant(sha, s)
    ensures IndexesOk(s.desk)
  {
  }

  /** Every signature comes from one call of the run, which found the request unexpired when it resolved the link. */
  lemma {:induction false} SignedInTime(sha: Bytes -> Digest, s: State, calls: seq<Call>, s': State, signer: Id)
      returns (k: nat)
    requires Invariant(sha, s) && Leads(sha, s, calls, s')
    requires signer in s'.ledger.signatures && signer !in s.ledger.signatures
    ensures k < |calls| && MadeBy(s'.desk, s'.ledger.signatures[signer], calls[k])
    decreases |calls|
  {
    hide Invariant, Apply, Possible, LibraryPermanent, SignersPermanent;
    var call, next := calls[0], Apply(sha, s, calls[0]).state;
    ApplyKeepsInvariant(sha, s, call);
    if signer in next.ledger.signatures {
      if call.SignIt? {
        InvariantIndexes(sha, s);
        SignMakesOne(sha, s, call, signer);
        RunIsPermanent(sha, next, calls[1..], s');
      } else {
        OthersMakeNone(sha, s, call);
      }
      k := 0;
    } else {
      var i := SignedInTime(sha, next, calls[1..], s', signer);
      k := i + 1;
    }
  }

  // ----- The object store -----

  ghost predicate Stores(call: Call) {
    call.Upload? || call.Revise? || call.SignIt?
  }

  /** The call passes its checks and gets as far as storing its object. */
  ghost predicate GetsToStore(sha: Bytes -> Digest, s: State, call: Call)
    requires Possible(s, call)
  {
    Stores(call) && Apply(sha, s, call.(fault := NoFault)).Done?
  }

  /** An object without a row: its write was torn, or its clean-up was refused. */
  ghost function LeftBehind(sha: Bytes -> Digest, s: State, call: Call): set<Key>
    requires Possible(s, call)
  {
    if GetsToStore(sha, s, call) && KeepsObject(call.fault) && !TakesEffect(call.fault) then {call.key} else {}
  }

  /** A row without its object: the answer to the commit was lost, and the clean-up discarded the object. */
  ghost function Lost(sha: Bytes -> Digest, s: State, call: Call): set<Key>
    requires Possible(s, call)
  {
    if GetsToStore(sha, s, call) && TakesEffect(call.fault) && !KeepsObject(call.fault) then {call.key} else {}
  }

  ghost function AllLeftBehind(sha: Bytes -> Digest, s: State, calls: seq<Call>): set<Key>
    decreases |calls|
  {
    if calls == [] || !Possible(s, calls[0]) then {}
    else LeftBehind(sha, s, calls[0]) + AllLeftBehind(sha, Apply(sha, s, calls[0]).state, calls[1..])
  }

  ghost function AllLost(sha: Bytes -> Digest, s: State, calls: seq<Call>): set<Key>
    decreases |calls|
  {
    if calls == [] || !Possible(s, calls[0]) then {}
    else Lost(sha, s, calls[0]) + AllLost(sha, Apply(sha, s, calls[0]).state, calls[1..])
  }

  /** `s'` stores the new keys `written`, and its rows name the new keys `named`. */
  ghost predicate Adds(s: State, s': State, written: set<Key>, named: set<Key>) {
    && s'.library.stored.Keys == s.library.stored.Keys + written
    && Referenced(s') == Referenced(s) + named
  }

  /** What one call adds to the store and to the rows: at most its own key. */
  ghost predicate StoreStep(sha: Bytes -> Digest, s: State, call: Call)
    requires Possible(s, call)
  {
    var gets := GetsToStore(sha, s, call);
    Adds(s, Apply(sha, s, call).state, if gets && KeepsObject(call.fault) then {call.key} else {},
        if gets && TakesEffect(call.fault) then {call.key} else {})
  }

  lemma SameReferences(s: State, s': State)
    requires s'.library.versions == s.library.versions && s'.ledger.signatures == s.ledger.signatures
    ensures Referenced(s') == Referenced(s)
  {
  }

  lemma VersionReferenced(s: State, s': State, v: (Id, nat), version: Version)
    requires v !in s.library.versions && s'.library.versions == s.library.versions[v := version]
        && s'.ledger.signatures == s.ledger.signatures
    ensures Referenced(s') == Referenced(s) + {version.key}
  {
    assert s'.library.versions[v].key in Referenced(s');
    forall k | k in Referenced(s) ensures k in Referenced(s') {
      if k !in (set i | i in s.ledger.signatures :: s.ledger.signatures[i].artifact) {
        var w :| w in s.library.versions && s.library.versions[w].key == k;
        assert s'.library.versions[w].key == k;
      }
    }
  }

  lemma SignatureReferenced(s: State, s': State, signer: Id, signature: Signature)
    requires signer !in s.ledger.signatures && s'.ledger.signatures == s.ledger.signatures[signer := signature]
        && s'.library.versions == s.library.versions
    ensures Referenced(s') == Referenced(s) + {signature.artifact}
  {
    assert s'.ledger.signatures[signer].artifact in Referenced(s');
    forall k | k in Referenced(s) ensures k in Referenced(s') {
      if k !in (set v | v in s.library.versions :: s.library.versions[v].key) {
        var i :| i in s.ledger.signatures && s.ledger.signatures[i].artifact == k;
        assert s'.ledger.signatures[i].artifact == k;
      }
    }
  }

  lemma CommitAdds(s: State, after: State, key: Key, content: Bytes, fault: Fault)
    requires after.library.stored == s.library.stored && Referenced(after) == Referenced(s) + {key}
    ensures Adds(s, Commit(s, after, key, content, fault).state, if KeepsObject(fault) then {key} else {},
        if TakesEffect(fault) then {key} else {})
    ensures Commit(s, after, key, content, NoFault).Done?
  {
    hide Referenced;
    SameReferences(if TakesEffect(fault) then after else s, Commit(s, after, key, content, fault).state);
  }

  lemma NothingAdded(s: State)
    ensures Adds(s, s, {}, {})
  {
  }

  lemma UploadStep(sha: Bytes -> Digest, s: State, call: Call)
    requires LibraryOk(sha, s.library) && Possible(s, call) && call.Upload?
    ensures StoreStep(sha, s, call)
  {
    hide Referenced, Adds, Commit, KeepsObject, TakesEffect;
    NothingAdded(s);
    if call.content != "" && call.gate.None? {
      var after := WithDocument(sha, s, call.document, call.tenant, call.content, call.key);
      VersionReferenced(s, after, (call.document, 1), Version(sha(call.content), call.key));
      CommitAdds(s, after, call.key, call.content, call.fault);
    }
  }

  lemma ReviseStep(sha: Bytes -> Digest, s: State, call: Call)
    requires LibraryOk(sha, s.library) && Possible(s, call) && call.Revise?
    ensures StoreStep(sha, s, call)
  {
    hide Referenced, Adds, Commit, KeepsObject, TakesEffect, Frozen;
    NothingAdded(s);
    if call.content != "" && LiveDocument(s, call.document) && call.gate.None? && !Frozen(s, call.document) {
      var after := WithVersion(sha, s, call.document, call.content, call.key);
      VersionReferenced(s, after, (call.document, s.library.documents[call.document].version + 1),
          Version(sha(call.content), call.key));
      CommitAdds(s, after, call.key, call.content, call.fault);
    }
  }

  lemma SignatureWrites(s: State, signer: Id, request: Id, signedAt: nat, paid: bool, key: Key)
    requires signer in s.desk.signers && request in s.desk.requests
        && s.desk.requests[request].document in s.library.documents
    ensures var s' := WithSignature(s, signer, request, signedAt, paid, key);
            && s'.library == s.library
            && var signature := Signature(request, s.desk.requests[request].sha, signedAt, key);
               s'.ledger.signatures == s.ledger.signatures[signer := signature]
  {
  }

  lemma SignStep(sha: Bytes -> Digest, s: State, call: Call)
    requires IndexesOk(s.desk) && SignaturesOk(s.desk, s.ledger.signatures) && Possible(s, call) && call.SignIt?
    ensures StoreStep(sha, s, call)
  {
    hide Referenced, Adds, IndexesOk, SignaturesOk, WithSignature, Resolve, SignRefusal, Commit, KeepsObject,
        TakesEffect;
    NothingAdded(s);
    var access := Resolve(s, call.token, call.user, call.now);
    if call.consent && access.Granted? {
      ResolvedSigner(s, call.token, call.user, call.now);
      if SignRefusal(sha, s, access.signer, access.request, call.certificate, call.represents, call.paid,
          call.pdf).None? {
        NotRefused(sha, s, access.signer, access.request, call.certificate, call.represents, call.paid, call.pdf);
        UnsignedHasNoSignature(s.desk, s.ledger.signatures, access.signer);
        var after := WithSignature(s, access.signer, access.request, call.signedAt, call.paid, call.key);
        SignatureWrites(s, access.signer, access.request, call.signedAt, call.paid, call.key);
        SignatureReferenced(s, after, access.signer, after.ledger.signatures[access.signer]);
        CommitAdds(s, after, call.key, call.artifact, call.fault);
      }
    }
  }

  lemma DeleteStoresNothing(sha: Bytes -> Digest, s: State, call: Call)
    requires Invariant(sha, s) && Possible(s, call) && call.Delete?
    ensures StoreStep(sha, s, call)
  {
    hide Referenced, Invariant;
    if Apply(sha, s, call).Done? {
      CancelAllKeepsInvariant(sha, s, call.rows);
    }
    SameReferences(s, Apply(sha, s, call).state);
  }

  lemma OthersStoreNothing(sha: Bytes -> Digest, s: State, call: Call)
    requires Possible(s, call) && !Stores(call) && !call.Delete?
    ensures StoreStep(sha, s, call)
  {
    hide Referenced, Resolve, SignersOf, Relinked;
    SameReferences(s, Apply(sha, s, call).state);
  }

  lemma StoreAfterCall(sha: Bytes -> Digest, s: State, call: Call)
    requires Invariant(sha, s) && Possible(s, call)
    ensures StoreStep(sha, s, call)
  {
    hide LibraryOk, RequestsOk, IndexesOk, CompletionOk, SignaturesOk, QuotaOk, RequestAuditOk, SignerAuditOk,
        StoreStep, Possible;
    if call.Upload? {
      UploadStep(sha, s, call);
    } else if call.Revise? {
      ReviseStep(sha, s, call);
    } else if call.SignIt? {
      SignStep(sha, s, call);
    } else if call.Delete? {
      DeleteStoresNothing(sha, s, call);
    } else {
      OthersStoreNothing(sha, s, call);
    }
  }

  lemma NewKeys(s: State, call: Call)
    requires Possible(s, call) && Stores(call)
    ensures call.key !in s.library.stored && call.key !in Referenced(s)
  {
  }

  lemma {:induction false} StoreAfterRun(sha: Bytes -> Digest, s: State, calls: seq<Call>, s': State)
    requires Invariant(sha, s) && Leads(sha, s, calls, s')
    ensures s'.library.stored.Keys - Referenced(s') == (s.library.stored.Keys - Referenced(s))
        + AllLeftBehind(sha, s, calls)
    ensures Referenced(s') - s'.library.stored.Keys == (Referenced(s) - s.library.stored.Keys) + AllLost(sha, s, calls)
    decreases |calls|
  {
    hide Invariant, Apply, Possible, Referenced, KeepsObject, TakesEffect;
    if calls != [] {
      var next := Apply(sha, s, calls[0]).state;
      StoreAfterCall(sha, s, calls[0]);
      ApplyKeepsInvariant(sha, s, calls[0]);
      if Stores(calls[0]) {
        NewKeys(s, calls[0]);
      }
      StoreAfterRun(sha, next, calls[1..], s');
    }
  }

  /**
   After every run, with a fault allowed at any point of any transaction, the keys without a row are
   exactly those left behind by a torn write or a refused clean-up, and the rows without an object
   exactly those whose commit took effect unanswered and was cleaned up after: keys and rows match if
   and only if no call broke in one of these ways.
   */
  lemma StoreIsClean(sha: Bytes -> Digest, calls: seq<Call>, s: State)
    requires Leads(sha, START, calls, s)
    ensures s.library.stored.Keys - Referenced(s) == AllLeftBehind(sha, START, calls)
    ensures Referenced(s) - s.library.stored.Keys == AllLost(sha, START, calls)
    ensures s.library.stored.Keys == Referenced(s) <==>
            AllLeftBehind(sha, START, calls) == {} && AllLost(sha, START, calls) == {}
  {
    hide Invariant, Leads, AllLeftBehind, AllLost;
    StartInvariant(sha);
    StoreAfterRun(sha, START, calls, s);
    var keys, refs := s.library.stored.Keys, Referenced(s);
    assert keys - refs == {} && refs - keys == {} <==> keys == refs by {
      assert keys == (keys - refs) + keys * refs && refs == (refs - keys) + keys * refs;
    }
  }

  /** Unless an unanswered commit is cleaned up after, no object is lost. */
  lemma {:induction false} NothingLost(sha: Bytes -> Digest, s: State, calls: seq<Call>)
    requires forall c | c in calls && Stores(c) :: TakesEffect(c.fault) ==> KeepsObject(c.fault)
    ensures AllLost(sha, s, calls) == {}
    decreases |calls|
  {
    hide Apply, Possible, TakesEffect, KeepsObject;
    if calls != [] && Possible(s, calls[0]) {
      NothingLost(sha, Apply(sha, s, calls[0]).state, calls[1..]);
    }
  }

  lemma NoRowsNoReferences(s: State)
    requires s.library.versions == map[] && s.ledger.signatures == map[]
    ensures Referenced(s) == {}
  {
  }

  lemma LeadsNowhere(sha: Bytes -> Digest, s: State)
    ensures Leads(sha, s, [], s)
  {
  }

  lemma LeadsOneMore(sha: Bytes -> Digest, s: State, call: Call, next: State, calls: seq<Call>, s': State)
    requires Possible(s, call) && Apply(sha, s, call).state == next && Leads(sha, next, calls, s')
    ensures Leads(sha, s, [call] + calls, s')
  {
    assert ([call] + calls)[1..] == calls;
  }

  /**
   All three happen: a first upload torn inside the write and one whose clean-up is refused leave a key
   each, and one whose commit is not answered leaves a document without its object.
   */
  lemma UploadsLeaveKeys(sha: Bytes -> Digest, content: Bytes, partial: Bytes) returns (calls: seq<Call>, s: State)
    requires content != ""
    ensures Leads(sha, START, calls, s)
    ensures s.library.stored.Keys == {0, 1} && Referenced(s) == {2} && s.library.documents.Keys == {0}
    ensures AllLeftBehind(sha, START, calls) == {0, 1} && AllLost(sha, START, calls) == {2}
  {
    hide Referenced, Leads, AllLeftBehind, AllLost;
    var torn := Upload(0, 0, content, None, 0, TornPut(partial));
    var kept := Upload(0, 0, content, None, 1, AfterPut(false));
    var lost := Upload(0, 0, content, None, 2, LostAnswer(true));
    var one := StoreObject(START, 0, partial);
    var two := StoreObject(one, 1, content);
    s := WithDocument(sha, two, 0, 0, content, 2);
    NoRowsNoReferences(START);
    NoRowsNoReferences(one);
    NoRowsNoReferences(two);
    VersionReferenced(two, s, (0, 1), Version(sha(content), 2));
    LeadsNowhere(sha, s);
    LeadsOneMore(sha, two, lost, s, [], s);
    LeadsOneMore(sha, one, kept, two, [lost] + [], s);
    LeadsOneMore(sha, START, torn, one, [kept] + ([lost] + []), s);
    calls := [torn] + ([kept] + ([lost] + []));
    StoreIsClean(sha, calls, s);
  }

  /**
   While a request on a live document is open or completed the head of the document is the version
   and digest the request froze; the bytes it froze are in the store, with that digest, unless the call
   that committed them lost them; and every signature of the request binds that digest.
   */
  lemma FrozenHead(sha: Bytes -> Digest, calls: seq<Call>, s: State, request: Id)
    requires Leads(sha, START, calls, s) && request in s.desk.requests
    ensures var item := s.desk.requests[request];
            && item.document in s.library.documents
            && (item.document, item.version) in s.library.versions
            && (FrozenKey(s, request) in s.library.stored <==> FrozenKey(s, request) !in AllLost(sha, START, calls))
            && (FrozenKey(s, request) in s.library.stored ==>
                  sha(s.library.stored[FrozenKey(s, request)]) == item.sha)
            && (LiveDocument(s, item.document) && item.status in {Open, RequestStatus.Completed} ==>
                  s.library.documents[item.document].version == item.version
                      && s.library.documents[item.document].sha == item.sha)
            && (forall i | i in s.ledger.signatures && s.ledger.signatures[i].request == request ::
                  s.ledger.signatures[i].sha == item.sha)
  {
    hide IndexesOk, CompletionOk, QuotaOk, RequestAuditOk, SignerAuditOk, Leads, AllLost, AllLeftBehind;
    ReachableInvariant(sha, s);
    StoreIsClean(sha, calls, s);
    assert FrozenKey(s, request) in Referenced(s);
  }

  // ----- A signature dated after the expiry -----

  const INVITED: map<Id, Signer> := map[0 := Signer(0, "", Pending, false, None)]

  ghost function OneDocument(sha: Bytes -> Digest, content: Bytes): Library {
    Library(map[0 := Document(0, 1, sha(content), 0, false)], map[(0, 1) := Version(sha(content), 0)],
            map[0 := content])
  }

  /** A request that expires at 5, with one invited user. */
  ghost function OneRequest(sha: Bytes -> Digest, content: Bytes, status: RequestStatus, links: map<Token, Id>): Desk {
    Desk(map[0 := Workflow.Request(0, 1, sha(content), status, 5, Evidence, None)], INVITED, map[(0, "") := 0], links)
  }

  /** A first document, a draft for it and an invitation. */
  lemma DraftedRequest(sha: Bytes -> Digest, content: Bytes) returns (s: State, calls: seq<Call>)
    requires content != ""
    ensures s.library == OneDocument(sha, content) && s.ledger == START.ledger
    ensures s.desk == OneRequest(sha, content, Draft, map[])
    ensures forall rest, s' | Leads(sha, s, rest, s') :: Leads(sha, START, calls + rest, s')
  {
    hide Referenced, Leads;
    var upload, draft, invite := Upload(0, 0, content, None, 0, NoFault), Call.Request(0, 0, 5, 0, None),
        Invite(0, 0, "", None, None);
    NoRowsNoReferences(START);
    var one := Apply(sha, START, upload).state;
    var two := Apply(sha, one, draft).state;
    s := Apply(sha, two, invite).state;
    calls := [upload, draft, invite];
    forall rest, s' | Leads(sha, s, rest, s') ensures Leads(sha, START, calls + rest, s') {
      LeadsOneMore(sha, two, invite, s, rest, s');
      LeadsOneMore(sha, one, draft, two, [invite] + rest, s');
      LeadsOneMore(sha, START, upload, one, [draft] + ([invite] + rest), s');
      assert calls + rest == [upload] + ([draft] + ([invite] + rest));
    }
  }

  /** The draft is opened and a link made. */
  lemma LinkedRequest(sha: Bytes -> Digest, content: Bytes, s: State) returns (s': State, calls: seq<Call>)
    requires s.library == OneDocument(sha, content) && s.ledger == START.ledger
    requires s.desk == OneRequest(sha, content, Draft, map[])
    ensures s'.library == s.library && s'.ledger == s.ledger
    ensures s'.desk == OneRequest(sha, content, Open, map[0 := 0])
    ensures forall rest, last | Leads(sha, s', rest, last) :: Leads(sha, s, calls + rest, last)
  {
    hide Leads;
    var opening, link := OpenIt(0, Evidence, None, None), Link(0, 0, None);
    assert 0 in SignersOf(s.desk, 0);
    var one := Apply(sha, s, opening).state;
    s' := Apply(sha, one, link).state;
    calls := [opening, link];
    forall rest, last | Leads(sha, s', rest, last) ensures Leads(sha, s, calls + rest, last) {
      LeadsOneMore(sha, one, link, s', rest, last);
      LeadsOneMore(sha, s, opening, one, [link] + rest, last);
      assert calls + rest == [opening] + ([link] + rest);
    }
  }

  /** Signing begins at 4, before the expiry, and dates the signature 6. */
  lemma SignedLate(sha: Bytes -> Digest, content: Bytes, artifact: Bytes, s: State) returns (call: Call, s': State)
    requires s.library == OneDocument(sha, content) && s.ledger == START.ledger
    requires s.desk == OneRequest(sha, content, Open, map[0 := 0])
    ensures Possible(s, call) && s' == Apply(sha, s, call).state
    ensures 0 in s'.ledger.signatures && s'.ledger.signatures[0].request == 0
    ensures s'.ledger.signatures[0].signedAt == 6
    ensures 0 in s'.desk.requests && s'.desk.requests[0].expiresAt == 5
  {
    hide Referenced, Unsigned, Charged;
    call := SignIt(0, "", true, 4, 6, false, None, false, None, artifact, 1, NoFault);
    VersionReferenced(START, s, (0, 1), Version(sha(content), 0));
    NoRowsNoReferences(START);
    s' := Apply(sha, s, call).state;
  }

  /** It happens: the clock is read again for the date of a signature, and may have passed the expiry by then. */
  lemma SignedAfterExpiry(sha: Bytes -> Digest, content: Bytes, artifact: Bytes) returns (calls: seq<Call>, s: State)
    requires content != ""
    ensures Leads(sha, START, calls, s)
    ensures 0 in s.ledger.signatures && s.ledger.signatures[0].request in s.desk.requests
    ensures s.desk.requests[s.ledger.signatures[0].request].expiresAt < s.ledger.signatures[0].signedAt
  {
    hide Leads, Possible, Apply;
    var draft, first := DraftedRequest(sha, content);
    var linked, second := LinkedRequest(sha, content, draft);
    var call;
    call, s := SignedLate(sha, content, artifact, linked);
    LeadsNowhere(sha, s);
    LeadsOneMore(sha, linked, call, s, [], s);
    calls := first + (second + ([call] + []));
  }
}
