/**
 The service class of the signature workflow: its tables are fields, and each method checks, stores
 and writes rows in the order of the code. The contracts tie every method to its transaction and
 to the invariant all transactions keep.
 */
module WorkflowService {
  import opened Options
  import opened Workflow
  import opened WorkflowInvariant

  /** `error` is what the outcome of a transaction reports to the caller. */
  predicate Reports(outcome: Outcome, error: Option<nat>) {
    error == match outcome case Done(_) => None case Failed(_, code) => Some(code)
  }

  /** Discarding an object just stored under a new key gives the store back. */
  lemma DiscardUndoesPut(stored: map<Key, Bytes>, key: Key, content: Bytes)
    requires key !in stored
    ensures stored[key := content] - {key} == stored
  {
  }

  lemma SignatureElsewhere(s: State, stored: map<Key, Bytes>, signer: Id, request: Id, signedAt: nat, paid: bool,
                           key: Key)
    requires signer in s.desk.signers && request in s.desk.requests
        && s.desk.requests[request].document in s.library.documents
    ensures WithSignature(s.(library := s.library.(stored := stored)), signer, request, signedAt, paid, key)
            == WithSignature(s, signer, request, signedAt, paid, key).(library := s.library.(stored := stored))
    ensures WithSignature(s, signer, request, signedAt, paid, key).library == s.library
  {
  }

  /** Cancelling the requests in progress on a document leaves none, and the others alone. */
  lemma CancelledRows(sha: Bytes -> Digest, s: State, document: Id, rows: seq<Id>)
    requires Invariant(sha, s) && NoDuplicates(rows) && forall r :: r in rows <==> r in ActiveRequests(s, document)
    ensures forall r | r in rows :: r in s.desk.requests
    ensures var s' := CancelAll(s, rows);
            && s'.library == s.library && ActiveRequests(s', document) == {}
            && (forall r | r in rows ::
                  r in s'.desk.requests && s'.desk.requests[r].status == RequestStatus.Cancelled)
            && (forall r | r in s.desk.requests && r !in rows ::
                  r in s'.desk.requests && s'.desk.requests[r] == s.desk.requests[r])
  {
    hide Invariant;
    CancelAllKeepsInvariant(sha, s, rows);
    forall r | r in CancelAll(s, rows).desk.requests ensures r !in ActiveRequests(CancelAll(s, rows), document) {
      assert r in rows <==> r in ActiveRequests(s, document);
    }
  }

  lemma CancelFirst(s: State, rows: seq<Id>)
    requires rows != [] && forall r | r in rows :: r in s.desk.requests
    ensures forall r | r in rows[1..] ::
              r in SetStatus(s, rows[0], RequestStatus.Cancelled, RequestCancelled).desk.requests
    ensures CancelAll(s, rows)
            == CancelAll(SetStatus(s, rows[0], RequestStatus.Cancelled, RequestCancelled), rows[1..])
  {
  }

  lemma CancelNone(s: State)
    ensures CancelAll(s, []) == s
  {
  }

  lemma SameActive(s: State, s': State, document: Id)
    requires s'.desk.requests == s.desk.requests
    ensures ActiveRequests(s', document) == ActiveRequests(s, document)
  {
  }

  lemma RosterListsSigners(sha: Bytes -> Digest, s: State, request: Id, user: string)
    requires Invariant(sha, s)
    ensures (request, user) !in s.desk.roster <==>
            forall i | i in s.desk.signers :: s.desk.signers[i].request != request || s.desk.signers[i].user != user
  {
    hide LibraryOk, RequestsOk, CompletionOk, SignaturesOk, QuotaOk, RequestAuditOk, SignerAuditOk;
    if (request, user) in s.desk.roster {
      assert s.desk.roster[(request, user)] in s.desk.signers;
    }
  }

  /** What a signature is: a signed row and a signature row of one signer, and a charge to the tenant. */
  ghost predicate SignedBy(s: State, s': State, signer: Id, request: Id, signedAt: nat, paid: bool, key: Key)
    requires signer in s.desk.signers && request in s.desk.requests
        && s.desk.requests[request].document in s.library.documents
  {
    var item, tenant := s.desk.requests[request], s.library.documents[s.desk.requests[request].document].tenant;
    && signer in s'.desk.signers
    && s'.desk.signers[signer] == s.desk.signers[signer].(status := Signed, signedAt := Some(signedAt))
    && (forall i | i in s.desk.signers && i != signer ::
          i in s'.desk.signers && s'.desk.signers[i] == s.desk.signers[i])
    && (forall i :: i in s'.ledger.signatures <==> i in s.ledger.signatures || i == signer)
    && s'.ledger.signatures[signer] == Signature(request, item.sha, signedAt, key)
    && (forall i | i in s.ledger.signatures && i != signer :: s'.ledger.signatures[i] == s.ledger.signatures[i])
    && request in s'.desk.requests
    && (s'.desk.requests[request] == item
        || s'.desk.requests[request] == item.(status := RequestStatus.Completed, completedAt := Some(signedAt)))
    && (forall r | r in s.desk.requests && r != request ::
          r in s'.desk.requests && s'.desk.requests[r] == s.desk.requests[r])
    && (forall t | t != tenant :: AccountOf(s'.ledger, t) == AccountOf(s.ledger, t))
    && AccountOf(s'.ledger, tenant).limit == AccountOf(s.ledger, tenant).limit
    && AccountOf(s'.ledger, tenant).used == AccountOf(s.ledger, tenant).used + (if paid then 0 else 1)
  }

  lemma WithSignatureSigns(s: State, signer: Id, request: Id, signedAt: nat, paid: bool, key: Key, artifact: Bytes)
    requires signer in s.desk.signers && request in s.desk.requests
        && s.desk.requests[request].document in s.library.documents
    ensures var s' := Commit(s, WithSignature(s, signer, request, signedAt, paid, key), key, artifact, NoFault).state;
            SignedBy(s, s', signer, request, signedAt, paid, key)
            && key in s'.library.stored && s'.library.stored[key] == artifact
  {
    hide Unsigned;
  }

  lemma CommitFails(s: State, after: State, key: Key, content: Bytes, fault: Fault)
    ensures Commit(s, after, key, content, fault).Done? <==> fault.NoFault?
    ensures fault.NoFault? ==> Commit(s, after, key, content, fault) == Commit(s, after, key, content, NoFault)
  {
  }

  class DatabaseSignatureWorkflowService {
    const sha: Bytes -> Digest

    var documents: map<Id, Document>
    var versions: map<(Id, nat), Version>
    var stored: map<Key, Bytes>
    var requests: map<Id, Request>
    var signers: map<Id, Signer>
    var roster: map<(Id, string), Id>
    var links: map<Token, Id>
    var signatures: map<Id, Signature>
    var accounts: map<Id, Account>
    ghost var unpaid: set<Id>
    var audit: seq<Event>

    function Desk(): Workflow.Desk
      reads this
    {
      Workflow.Desk(requests, signers, roster, links)
    }

    ghost function Snapshot(): State
      reads this
    {
      State(Library(documents, versions, stored), Desk(), Ledger(signatures, accounts, unpaid), audit)
    }

    ghost predicate Valid()
      reads this
    {
      Invariant(sha, Snapshot())
    }

    constructor (hash: Bytes -> Digest)
      ensures sha == hash && Snapshot() == START && Valid()
    {
      sha := hash;
      documents, versions, stored := map[], map[], map[];
      requests, signers, roster, links := map[], map[], map[], map[];
      signatures, accounts, unpaid, audit := map[], map[], {}, [];
      new;
      hide Invariant;
      StartInvariant(sha);
    }

    /** `_audit` */
    method Audit(request: Option<Id>, action: Action, entity: Id)
      modifies `audit
      ensures audit == old(audit) + [Event(request, action, entity)]
    {
      audit := audit + [Event(request, action, entity)];
    }

    /** `storage.put`, and `discard_uncommitted` when the transaction breaks between it and the commit. */
    method Put(key: Key, content: Bytes, fault: Fault) returns (kept: bool)
      requires key !in stored
      modifies `stored
      ensures kept <==> TakesEffect(fault)
      ensures stored == match fault
                        case NoFault => old(stored)[key := content]
                        case BeforePut => old(stored)
                        case TornPut(partial) => old(stored)[key := partial]
                        case AfterPut(discarded) => if discarded then old(stored) else old(stored)[key := content]
                        case LostAnswer(_) => old(stored)[key := content]
    {
      if fault.BeforePut? {
        return false;
      }
      if fault.TornPut? {
        stored := stored[key := fault.partial];
        return false;
      }
      stored := stored[key := content];
      if fault.AfterPut? {
        if fault.discarded {
          stored := stored - {key};
        }
        return false;
      }
      return true;
    }

    /** The commit of the rows: when its answer is lost, `discard_uncommitted` runs although they are written. */
    method CommitRows(key: Key, fault: Fault) returns (error: Option<nat>)
      requires TakesEffect(fault)
      modifies `stored
      ensures stored == if KeepsObject(fault) then old(stored) else old(stored) - {key}
      ensures error == if fault.NoFault? then None else Some(500)
    {
      if fault.NoFault? {
        return None;
      }
      if fault.discarded {
        stored := stored - {key};
      }
      return Some(500);
    }

    method CreateDocument(document: Id, tenant: Id, content: Bytes, gate: Gate, key: Key, fault: Fault)
        returns (error: Option<nat>)
      requires Valid() && document !in documents && NewKey(Snapshot(), key)
      modifies this
      ensures Valid()
      ensures var outcome := Workflow.CreateDocument(sha, old(Snapshot()), document, tenant, content, gate, key, fault);
              Snapshot() == outcome.state && Reports(outcome, error)
      ensures error.None? <==> content != "" && gate.None? && fault.NoFault?
      ensures error.None? ==>
                && document in documents && documents[document].tenant == tenant && documents[document].version == 1
                && GetContent(sha, Snapshot(), document, 1) == Some(content)
                && audit == old(audit) + [Event(None, DocumentUploaded, document)]
    {
      hide Invariant, Referenced;
      CreateDocumentKeepsInvariant(sha, Snapshot(), document, tenant, content, gate, key, fault);
      if content == "" {
        return Some(400);
      }
      var digest := sha(content);
      if gate.Some? {
        return gate;
      }
      DiscardUndoesPut(stored, key, content);
      var kept := Put(key, content, fault);
      if !kept {
        return Some(500);
      }
      documents := documents[document := Document(tenant, 1, digest, key, false)];
      versions := versions[(document, 1) := Version(digest, key)];
      Audit(None, DocumentUploaded, document);
      error := CommitRows(key, fault);
    }

    method AddVersion(document: Id, content: Bytes, gate: Gate, key: Key, fault: Fault) returns (error: Option<nat>)
      requires Valid() && NewKey(Snapshot(), key)
      modifies this
      ensures Valid()
      ensures var outcome := Workflow.AddVersion(sha, old(Snapshot()), document, content, gate, key, fault);
              Snapshot() == outcome.state && Reports(outcome, error)
      ensures error.None? <==>
                && content != "" && LiveDocument(old(Snapshot()), document) && gate.None? && fault.NoFault?
                && !Frozen(old(Snapshot()), document)
      ensures error.None? ==>
                var number := old(documents)[document].version + 1;
                && document in documents && documents[document].tenant == old(documents)[document].tenant
                && documents[document].version == number
                && GetContent(sha, Snapshot(), document, number) == Some(content)
                && audit == old(audit) + [Event(None, VersionCreated, document)]
    {
      hide Invariant, Referenced;
      AddVersionKeepsInvariant(sha, Snapshot(), document, content, gate, key, fault);
      if content == "" {
        return Some(400);
      }
      if document !in documents || documents[document].deleted {
        return Some(404);
      }
      if gate.Some? {
        return gate;
      }
      if exists r :: r in requests && requests[r].document == document && requests[r].status in {Open, Completed} {
        return Some(409);
      }
      var digest := sha(content);
      DiscardUndoesPut(stored, key, content);
      var kept := Put(key, content, fault);
      if !kept {
        return Some(500);
      }
      var item := documents[document];
      item := item.(version := item.version + 1);
      item := item.(key := key);
      item := item.(sha := digest);
      documents := documents[document := item];
      versions := versions[(document, item.version) := Version(digest, key)];
      Audit(None, VersionCreated, document);
      error := CommitRows(key, fault);
    }

    method SetRequestStatus(request: Id, status: RequestStatus, action: Action)
      requires request in requests
      modifies `requests, `audit
      ensures Snapshot() == SetStatus(old(Snapshot()), request, status, action)
    {
      requests := requests[request := requests[request].(status := status)];
      Audit(Some(request), action, request);
    }

    /** `rows` is the answer of the query for the requests in progress. */
    method DeleteDocument(document: Id, gate: Gate, force: bool, rows: seq<Id>) returns (error: Option<nat>)
      requires Valid() && NoDuplicates(rows) && forall r :: r in rows <==> r in ActiveRequests(Snapshot(), document)
      modifies this
      ensures Valid()
      ensures var outcome := Workflow.DeleteDocument(old(Snapshot()), document, gate, force, rows);
              Snapshot() == outcome.state && Reports(outcome, error)
      ensures error.None? <==> LiveDocument(old(Snapshot()), document) && gate.None? && (force || rows == [])
      ensures error.None? ==>
                && !LiveDocument(Snapshot(), document) && ActiveRequests(Snapshot(), document) == {}
                && (forall r | r in rows :: r in requests && requests[r].status == RequestStatus.Cancelled)
                && (forall r | r in old(requests) && r !in rows :: r in requests && requests[r] == old(requests)[r])
                && (forall d | d in old(documents) && d != document ::
                      d in documents && documents[d] == old(documents)[d])
    {
      hide Invariant, CancelAll, ActiveRequests;
      ghost var before := Snapshot();
      CancelledRows(sha, before, document, rows);
      DeleteDocumentKeepsInvariant(sha, before, document, gate, force, rows);
      if document !in documents || documents[document].deleted {
        return Some(404);
      }
      if gate.Some? {
        return gate;
      }
      if rows != [] && !force {
        return Some(409);
      }
      for i := 0 to |rows|
        invariant forall r | r in rows :: r in requests
        invariant CancelAll(Snapshot(), rows[i..]) == CancelAll(before, rows)
        invariant Snapshot().library == before.library
      {
        CancelFirst(Snapshot(), rows[i..]);
        assert rows[i..][1..] == rows[i + 1..];
        SetRequestStatus(rows[i], RequestStatus.Cancelled, RequestCancelled);
      }
      assert rows[|rows|..] == [];
      CancelNone(Snapshot());
      documents := documents[document := documents[document].(deleted := true)];
      Audit(None, DocumentDeleted, document);
      SameActive(CancelAll(before, rows), Snapshot(), document);
      return None;
    }

    method CreateRequest(request: Id, document: Id, expiresAt: nat, now: nat, gate: Gate) returns (error: Option<nat>)
      requires Valid() && request !in requests
      modifies `requests, `audit
      ensures Valid()
      ensures var outcome := Workflow.CreateRequest(old(Snapshot()), request, document, expiresAt, now, gate);
              Snapshot() == outcome.state && Reports(outcome, error)
      ensures error.None? <==> now < expiresAt && LiveDocument(old(Snapshot()), document) && gate.None?
      ensures error.None? ==>
                && request in requests && requests[request].document == document
                && requests[request].version == documents[document].version
                && requests[request].sha == documents[document].sha
                && requests[request].status == Draft && requests[request].expiresAt == expiresAt
                && (forall r | r in old(requests) :: r in requests && requests[r] == old(requests)[r])
                && audit == old(audit) + [Event(Some(request), RequestCreated, request)]
    {
      hide Invariant;
      CreateRequestKeepsInvariant(sha, Snapshot(), request, document, expiresAt, now, gate);
      if expiresAt <= now {
        return Some(400);
      }
      if document !in documents || documents[document].deleted {
        return Some(404);
      }
      if gate.Some? {
        return gate;
      }
      var item := documents[document];
      requests := requests[request := Request(document, item.version, item.sha, Draft, expiresAt, Evidence, None)];
      Audit(Some(request), RequestCreated, request);
      return None;
    }

    method AddSigner(signer: Id, request: Id, user: string, gate: Gate, role: Gate) returns (error: Option<nat>)
      requires Valid() && signer !in signers
      modifies `signers, `roster, `audit
      ensures Valid()
      ensures var outcome := Workflow.AddSigner(old(Snapshot()), signer, request, user, gate, role);
              Snapshot() == outcome.state && Reports(outcome, error)
      ensures error.None? <==>
                && request in requests && gate.None? && requests[request].status == Draft && role.None?
                && (forall i | i in old(signers) ::
                      old(signers)[i].request != request || old(signers)[i].user != user)
      ensures error.None? ==>
                && signer in signers && signers[signer].request == request && signers[signer].user == user
                && signers[signer].status == Pending && !signers[signer].revoked
                && (forall i | i in old(signers) :: i in signers && signers[i] == old(signers)[i])
                && audit == old(audit) + [Event(Some(request), SignerLinkCreated, signer)]
    {
      hide Invariant;
      RosterListsSigners(sha, Snapshot(), request, user);
      AddSignerKeepsInvariant(sha, Snapshot(), signer, request, user, gate, role);
      if request !in requests {
        return Some(404);
      }
      if gate.Some? {
        return gate;
      }
      if requests[request].status != Draft {
        return Some(409);
      }
      if role.Some? {
        return role;
      }
      if (request, user) in roster {
        return Some(409);
      }
      signers := signers[signer := Signer(request, user, Pending, false, None)];
      roster := roster[(request, user) := signer];
      Audit(Some(request), SignerLinkCreated, signer);
      return None;
    }

    method CreateSigningLink(request: Id, token: Token, gate: Gate) returns (error: Option<nat>)
      requires Valid()
      modifies `links, `audit
      ensures Valid()
      ensures var outcome := CreateLink(old(Snapshot()), request, token, gate);
              Snapshot() == outcome.state && Reports(outcome, error)
      ensures error.None? <==>
                && request in requests && gate.None? && requests[request].status in {Open, Completed}
                && LiveDocument(Snapshot(), requests[request].document)
      ensures error.None? ==>
                && token in links && links[token] == request
                && (forall t, user, now | t != token && t in old(links) && old(links)[t] == request ::
                      Resolve(Snapshot(), t, user, now) == Refused(404))
                && (forall t | t in old(links) && old(links)[t] != request && t != token ::
                      t in links && links[t] == old(links)[t])
                && audit == old(audit) + [Event(Some(request), RequestLinkCreated, request)]
    {
      hide Invariant;
      CreateLinkKeepsInvariant(sha, Snapshot(), request, token, gate);
      if request !in requests {
        return Some(404);
      }
      if gate.Some? {
        return gate;
      }
      if requests[request].status !in {Open, Completed} {
        return Some(409);
      }
      var document := requests[request].document;
      if document !in documents || documents[document].deleted {
        return Some(404);
      }
      links := Relinked(links, token, request);
      Audit(Some(request), RequestLinkCreated, request);
      return None;
    }

    method RevokeSignerLink(request: Id, signer: Id, gate: Gate) returns (error: Option<nat>)
      requires Valid()
      modifies `signers, `audit
      ensures Valid()
      ensures var outcome := Workflow.RevokeSignerLink(old(Snapshot()), request, signer, gate);
              Snapshot() == outcome.state && Reports(outcome, error)
      ensures error.None? <==>
                && request in requests && gate.None?
                && signer in signers && old(signers)[signer].request == request
                && old(signers)[signer].status != Signed
      ensures error.None? ==>
                && signers[signer].revoked && signers[signer].status == old(signers)[signer].status
                && (forall i | i in old(signers) && i != signer :: i in signers && signers[i] == old(signers)[i])
                && audit == old(audit) + (if old(signers)[signer].revoked then []
                                          else [Event(Some(request), SignerLinkRevoked, signer)])
    {
      hide Invariant;
      RevokeSignerLinkKeepsInvariant(sha, Snapshot(), request, signer, gate);
      if request !in requests {
        return Some(404);
      }
      if gate.Some? {
        return gate;
      }
      if signer !in signers || signers[signer].request != request {
        return Some(404);
      }
      if signers[signer].status == Signed {
        return Some(409);
      }
      if !signers[signer].revoked {
        signers := signers[signer := signers[signer].(revoked := true)];
        Audit(Some(request), SignerLinkRevoked, signer);
      }
      return None;
    }

    method OpenRequest(request: Id, mode: Mode, gate: Gate, ready: Gate) returns (error: Option<nat>)
      requires Valid()
      modifies `requests, `audit
      ensures Valid()
      ensures var outcome := Workflow.OpenRequest(old(Snapshot()), request, mode, gate, ready);
              Snapshot() == outcome.state && Reports(outcome, error)
      ensures error.None? <==>
                && request in requests && gate.None? && old(requests)[request].status == Draft
                && SignersOf(Desk(), request) != {} && (mode != Evidence ==> ready.None?)
                && (mode == SerproId ==> |SignersOf(Desk(), request)| == 1)
                && LiveDocument(Snapshot(), old(requests)[request].document)
                && documents[old(requests)[request].document].version == old(requests)[request].version
                && documents[old(requests)[request].document].sha == old(requests)[request].sha
      ensures error.None? ==>
                && requests[request].status == Open && requests[request].mode == mode
                && requests[request].expiresAt == old(requests)[request].expiresAt
                && (forall r | r in old(requests) && r != request :: r in requests && requests[r] == old(requests)[r])
                && audit == old(audit) + [Event(Some(request), RequestOpened, request)]
    {
      hide Invariant;
      OpenRequestKeepsInvariant(sha, Snapshot(), request, mode, gate, ready);
      if request !in requests {
        return Some(404);
      }
      if gate.Some? {
        return gate;
      }
      var item := requests[request];
      if item.status != Draft {
        return Some(409);
      }
      var invited := SignersOf(Desk(), request);
      if invited == {} {
        return Some(409);
      }
      if mode != Evidence && ready.Some? {
        return ready;
      }
      if mode == SerproId && |invited| != 1 {
        return Some(409);
      }
      if item.document !in documents || documents[item.document].deleted {
        return Some(404);
      }
      if documents[item.document].version != item.version || documents[item.document].sha != item.sha {
        return Some(409);
      }
      item := item.(status := Open);
      item := item.(mode := mode);
      requests := requests[request := item];
      Audit(Some(request), RequestOpened, request);
      return None;
    }

    method CancelRequest(request: Id, gate: Gate) returns (error: Option<nat>)
      requires Valid()
      modifies `requests, `audit
      ensures Valid()
      ensures var outcome := Workflow.CancelRequest(old(Snapshot()), request, gate);
              Snapshot() == outcome.state && Reports(outcome, error)
      ensures error.None? <==>
                request in requests && gate.None? && old(requests)[request].status in {Draft, Open}
      ensures error.None? ==>
                && requests[request].status == RequestStatus.Cancelled
                && (forall r | r in old(requests) && r != request :: r in requests && requests[r] == old(requests)[r])
                && audit == old(audit) + [Event(Some(request), RequestCancelled, request)]
    {
      hide Invariant;
      if request !in requests {
        return Some(404);
      }
      if gate.Some? {
        return gate;
      }
      if requests[request].status !in {Draft, Open} {
        return Some(409);
      }
      CancelKeepsInvariant(sha, Snapshot(), request);
      SetRequestStatus(request, RequestStatus.Cancelled, RequestCancelled);
      return None;
    }

    /** A signing link that leads to a request, and the row of a user invited to it. */
    predicate Invited(token: Token, user: string, signer: Id)
      reads this
    {
      && token in links && signer in signers
      && signers[signer].request == links[token] && signers[signer].user == user
    }

    /**
     `_resolve_request` for a signer who wants to act: access is granted exactly to a signer of the
     linked request who is not revoked, while the request is open and has not expired; an unknown
     link is reported before a stranger, a stranger before a revocation or the expiry, and these
     before a request that is not open.
     */
    method ResolveRequest(token: Token, user: string, now: nat) returns (access: Access)
      requires Valid()
      ensures access == Resolve(Snapshot(), token, user, now)
      ensures forall signer, request: Id :: access == Granted(signer, request) <==>
                && Invited(token, user, signer) && request == links[token]
                && !signers[signer].revoked
                && request in requests && requests[request].status == Open && now < requests[request].expiresAt
      ensures access == Refused(404) <==> token !in links
      ensures access == Refused(403) <==> token in links && forall signer :: !Invited(token, user, signer)
      ensures access == Refused(410) <==>
                exists signer :: Invited(token, user, signer) && links[token] in requests
                                 && (signers[signer].revoked || requests[links[token]].expiresAt <= now)
      ensures access == Refused(409) <==>
                exists signer :: Invited(token, user, signer) && links[token] in requests
                                 && !signers[signer].revoked && now < requests[links[token]].expiresAt
                                 && requests[links[token]].status != Open
    {
      hide LibraryOk, RequestsOk, CompletionOk, SignaturesOk, QuotaOk, RequestAuditOk, SignerAuditOk;
      assert forall signer | Invited(token, user, signer) ::
          (links[token], user) in roster && roster[(links[token], user)] == signer;
      assert token in links ==> links[token] in requests;
      if token in links && (links[token], user) in roster {
        assert Invited(token, user, roster[(links[token], user)]);
      }
      if token !in links || links[token] !in requests {
        return Refused(404);
      }
      var request := links[token];
      if (request, user) !in roster || roster[(request, user)] !in signers {
        return Refused(403);
      }
      var signer := roster[(request, user)];
      if signers[signer].revoked || requests[request].expiresAt <= now {
        return Refused(410);
      }
      if requests[request].status != Open {
        return Refused(409);
      }
      return Granted(signer, request);
    }

    method View(token: Token, user: string, now: nat) returns (error: Option<nat>)
      requires Valid()
      modifies `signers, `audit
      ensures Valid()
      ensures var outcome := Workflow.View(old(Snapshot()), token, user, now);
              Snapshot() == outcome.state && Reports(outcome, error)
      ensures error.None? <==> Resolve(old(Snapshot()), token, user, now).Granted?
      ensures error.None? ==>
                var signer := Resolve(old(Snapshot()), token, user, now).signer;
                && signer in old(signers) && signer in signers
                && signers[signer].status == (if old(signers)[signer].status == Pending then Viewed
                                              else old(signers)[signer].status)
                && (forall i | i in old(signers) && i != signer :: i in signers && signers[i] == old(signers)[i])
                && audit == old(audit) + (if old(signers)[signer].status != Pending then []
                                          else [Event(Some(old(signers)[signer].request), DocumentViewed, signer)])
    {
      hide LibraryOk, RequestsOk, IndexesOk, CompletionOk, SignaturesOk, QuotaOk, RequestAuditOk, SignerAuditOk,
          Resolve;
      ViewKeepsInvariant(sha, Snapshot(), token, user, now);
      var access := ResolveRequest(token, user, now);
      if access.Refused? {
        return Some(access.code);
      }
      ResolvedSigner(Snapshot(), token, user, now);
      var signer := access.signer;
      if signers[signer].status == Pending {
        signers := signers[signer := signers[signer].(status := Viewed)];
        Audit(Some(access.request), DocumentViewed, signer);
      }
      return None;
    }

    method Decline(token: Token, user: string, now: nat) returns (error: Option<nat>)
      requires Valid()
      modifies `signers, `audit
      ensures Valid()
      ensures var outcome := Workflow.Decline(old(Snapshot()), token, user, now);
              Snapshot() == outcome.state && Reports(outcome, error)
      ensures error.None? ==> Resolve(old(Snapshot()), token, user, now).Granted?
      ensures Resolve(old(Snapshot()), token, user, now).Granted? ==>
                var signer := Resolve(old(Snapshot()), token, user, now).signer;
                && signer in old(signers) && signer in signers
                && (error.None? <==> old(signers)[signer].status in {Pending, Viewed})
                && (error.None? ==> signers[signer].status == SignerStatus.Declined)
                && (forall i | i in old(signers) && i != signer :: i in signers && signers[i] == old(signers)[i])
                && (error.None? ==>
                      audit == old(audit) + [Event(Some(old(signers)[signer].request), SignatureDeclined, signer)])
    {
      hide LibraryOk, RequestsOk, IndexesOk, CompletionOk, SignaturesOk, QuotaOk, RequestAuditOk, SignerAuditOk,
          Resolve;
      DeclineKeepsInvariant(sha, Snapshot(), token, user, now);
      var access := ResolveRequest(token, user, now);
      if access.Refused? {
        return Some(access.code);
      }
      ResolvedSigner(Snapshot(), token, user, now);
      var signer := access.signer;
      assert signers[signer].status.Pending? || signers[signer].status.Viewed? || signers[signer].status.Signed?
          || signers[signer].status.Declined?;
      if signers[signer].status in {Signed, SignerStatus.Declined} {
        return Some(409);
      }
      signers := signers[signer := signers[signer].(status := SignerStatus.Declined)];
      Audit(Some(access.request), SignatureDeclined, signer);
      return None;
    }

    /** `consume_signature`; `paid` is paid or lifetime access. */
    method ConsumeSignature(tenant: Id, paid: bool) returns (allowed: bool)
      modifies `accounts
      ensures allowed <==>
                paid || AccountOf(old(Snapshot()).ledger, tenant).used < AccountOf(old(Snapshot()).ledger, tenant).limit
      ensures accounts == if allowed then Charged(old(Snapshot()).ledger, tenant, paid) else old(accounts)
    {
      var account := if tenant in accounts then accounts[tenant] else Account(FREE_SIGNATURES, 0);
      if !paid {
        if account.used >= account.limit {
          return false;
        }
        account := account.(used := account.used + 1);
      }
      accounts := accounts[tenant := account];
      return true;
    }

    /** The checks of `sign` before the signature is charged. */
    method CheckSigner(signer: Id, request: Id, certificate: bool, represents: Gate) returns (refusal: Gate)
      requires signer in signers && request in requests
      ensures refusal == EarlyRefusal(Snapshot(), signer, request, certificate, represents)
    {
      var row, item := signers[signer], requests[request];
      if row.status == Signed {
        return Some(409);
      }
      if item.mode == SerproId && !certificate {
        return Some(409);
      }
      if item.mode != SerproId && certificate {
        return Some(409);
      }
      if certificate {
        if row.status !in {Pending, Viewed} {
          return Some(409);
        }
        var remaining := |Unsigned(Desk(), request)|;
        if remaining != 1 {
          return Some(409);
        }
      }
      if (item.document, item.version) !in versions || versions[(item.document, item.version)].sha != item.sha {
        return Some(409);
      }
      if item.document !in documents || documents[item.document].deleted {
        return Some(404);
      }
      return represents;
    }

    /** The signer has signed; when nobody is left to sign the request is complete. */
    method MarkSigned(signer: Id, request: Id, signedAt: nat)
      requires signer in signers && request in requests
      modifies `signers, `requests, `audit
      ensures var signed := old(signers[signer]).(status := Signed, signedAt := Some(signedAt));
              var desk := old(Desk()).(signers := old(signers)[signer := signed]);
              var row := old(requests[request]).(status := RequestStatus.Completed, completedAt := Some(signedAt));
              var written := old(audit) + [Event(Some(request), SignatureCompleted, signer)];
              var left := Unsigned(desk, request) != {};
              && Desk() == (if left then desk else desk.(requests := desk.requests[request := row]))
              && audit == (if left then written else written + [Event(Some(request), RequestCompleted, request)])
    {
      hide Unsigned;
      signers := signers[signer := signers[signer].(status := Signed, signedAt := Some(signedAt))];
      Audit(Some(request), SignatureCompleted, signer);
      if Unsigned(Desk(), request) == {} {
        requests := requests[request := requests[request].(status := RequestStatus.Completed)];
        requests := requests[request := requests[request].(completedAt := Some(signedAt))];
        Audit(Some(request), RequestCompleted, request);
      }
    }

    /** Every check of `sign` after the link resolved; the charge stays when all of them pass. */
    method Authorize(signer: Id, request: Id, certificate: bool, represents: Gate, paid: bool, pdf: Gate)
        returns (refusal: Gate)
      requires signer in signers && request in requests
      modifies `accounts
      ensures refusal == SignRefusal(sha, old(Snapshot()), signer, request, certificate, represents, paid, pdf)
      ensures refusal.Some? ==> accounts == old(accounts)
      ensures refusal.None? ==>
                && (requests[request].document, requests[request].version) in versions
                      && requests[request].document in documents
                && accounts == Charged(old(Snapshot()).ledger, documents[requests[request].document].tenant, paid)
    {
      hide SignRefusal, EarlyRefusal, Unsigned;
      RefusalInSteps(sha, Snapshot(), signer, request, certificate, represents, paid, pdf);
      refusal := CheckSigner(signer, request, certificate, represents);
      if refusal.Some? {
        return;
      }
      var item := requests[request];
      var version, committed := versions[(item.document, item.version)], accounts;
      var allowed := ConsumeSignature(documents[item.document].tenant, paid);
      if !allowed {
        return Some(402);
      }
      if version.key !in stored {
        accounts := committed;
        return Some(500);
      }
      if sha(stored[version.key]) != item.sha {
        accounts := committed;
        return Some(409);
      }
      if pdf.Some? {
        accounts := committed;
      }
      return pdf;
    }

    /** The rows of a signature that is already charged; `committed` are the counters before the charge. */
    method WriteSignature(signer: Id, request: Id, signedAt: nat, paid: bool, key: Key,
                          ghost committed: map<Id, Account>)
      requires signer in signers && request in requests && requests[request].document in documents
      requires accounts == Charged(Ledger(signatures, committed, unpaid), documents[requests[request].document].tenant,
          paid)
      modifies `signatures, `unpaid, `signers, `requests, `audit
      ensures var before := old(Snapshot()).(ledger := Ledger(old(signatures), committed, old(unpaid)));
              Snapshot() == WithSignature(before, signer, request, signedAt, paid, key)
    {
      hide Unsigned, Charged;
      signatures := signatures[signer := Signature(request, requests[request].sha, signedAt, key)];
      unpaid := if paid then unpaid else unpaid + {signer};
      MarkSigned(signer, request, signedAt);
    }

    /** The end of `sign`: the signed PDF is stored and the rows written, or the charge is taken back. */
    method StoreSignature(signer: Id, request: Id, signedAt: nat, paid: bool, artifact: Bytes, key: Key, fault: Fault,
                          committed: map<Id, Account>)
      returns (error: Option<nat>)
      requires key !in stored && signer in signers && request in requests && requests[request].document in documents
      requires accounts == Charged(Ledger(signatures, committed, unpaid), documents[requests[request].document].tenant,
          paid)
      modifies this
      ensures var before := old(Snapshot()).(ledger := Ledger(old(signatures), committed, old(unpaid)));
              var outcome := Commit(before, WithSignature(before, signer, request, signedAt, paid, key), key, artifact,
                  fault);
              Snapshot() == outcome.state && Reports(outcome, error)
    {
      hide Unsigned, Charged, WithSignature;
      ghost var before := Snapshot().(ledger := Ledger(signatures, committed, unpaid));
      DiscardUndoesPut(stored, key, artifact);
      var kept := Put(key, artifact, fault);
      if !kept {
        accounts := committed;
        return Some(500);
      }
      SignatureElsewhere(before, stored, signer, request, signedAt, paid, key);
      WriteSignature(signer, request, signedAt, paid, key, committed);
      error := CommitRows(key, fault);
    }

    /** `now` is when the link is resolved and `signedAt` when the rows are dated: the clock is read twice. */
    method Sign(token: Token, user: string, consent: bool, now: nat, signedAt: nat, certificate: bool,
                represents: Gate, paid: bool, pdf: Gate, artifact: Bytes, key: Key, fault: Fault)
        returns (error: Option<nat>)
      requires Valid() && NewKey(Snapshot(), key)
      modifies this
      ensures Valid()
      ensures var outcome := Workflow.Sign(sha, old(Snapshot()), token, user, consent, now, signedAt, certificate,
          represents, paid, pdf, artifact, key, fault);
              Snapshot() == outcome.state && Reports(outcome, error)
      ensures error.None? ==>
                var access := Resolve(old(Snapshot()), token, user, now);
                && consent && fault.NoFault? && access.Granted?
                && access.signer in old(signers) && access.request in old(requests)
                && old(requests)[access.request].document in old(documents)
                && SignedBy(old(Snapshot()), Snapshot(), access.signer, access.request, signedAt, paid, key)
                && key in stored && stored[key] == artifact
    {
      hide LibraryOk, RequestsOk, IndexesOk, CompletionOk, SignaturesOk, QuotaOk, RequestAuditOk, SignerAuditOk;
      hide Resolve, SignRefusal, Unsigned, Charged, WithSignature, Commit, Referenced, SignedBy;
      ghost var before := Snapshot();
      SignKeepsInvariant(sha, before, token, user, consent, now, signedAt, certificate, represents, paid, pdf,
          artifact, key, fault);
      if !consent {
        return Some(400);
      }
      var access := ResolveRequest(token, user, now);
      if access.Refused? {
        return Some(access.code);
      }
      ResolvedSigner(before, token, user, now);
      var signer, request, committed := access.signer, access.request, accounts;
      var refusal := Authorize(signer, request, certificate, represents, paid, pdf);
      if refusal.Some? {
        return refusal;
      }
      WithSignatureSigns(before, signer, request, signedAt, paid, key, artifact);
      CommitFails(before, WithSignature(before, signer, request, signedAt, paid, key), key, artifact, fault);
      error := StoreSignature(signer, request, signedAt, paid, artifact, key, fault, committed);
    }
  }

  function EarlyRefusal(s: State, signer: Id, request: Id, certificate: bool, represents: Gate): Gate
    requires signer in s.desk.signers && request in s.desk.requests
  {
    var row, item := s.desk.signers[signer], s.desk.requests[request];
    var version := (item.document, item.version);
    if row.status == Signed then Some(409)
    else if (item.mode == SerproId) != certificate then Some(409)
    else if certificate && row.status !in {Pending, Viewed} then Some(409)
    else if certificate && |Unsigned(s.desk, request)| != 1 then Some(409)
    else if version !in s.library.versions || s.library.versions[version].sha != item.sha then Some(409)
    else if !LiveDocument(s, item.document) then Some(404)
    else represents
  }

  /** `sign` refuses for an early reason or, the document being there, for one of the later ones. */
  lemma RefusalInSteps(sha: Bytes -> Digest, s: State, signer: Id, request: Id, certificate: bool, represents: Gate,
                       paid: bool, pdf: Gate)
    requires signer in s.desk.signers && request in s.desk.requests
    ensures var item := s.desk.requests[request];
            var early := EarlyRefusal(s, signer, request, certificate, represents);
            var refusal := SignRefusal(sha, s, signer, request, certificate, represents, paid, pdf);
            if early.Some? then refusal == early
            else
              && (item.document, item.version) in s.library.versions && LiveDocument(s, item.document)
              && (var account, version := AccountOf(s.ledger, s.library.documents[item.document].tenant),
                    s.library.versions[(item.document, item.version)];
                  refusal == if !paid && account.used >= account.limit then Some(402)
                             else if version.key !in s.library.stored then Some(500)
                             else if sha(s.library.stored[version.key]) != item.sha then Some(409)
                             else pdf)
  {
  }
}
