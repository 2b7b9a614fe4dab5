/** Attachment turns as a protocol: any number of requests, upload processes and answer workers, stale ones
    included, interleave their transactions in any order. A claim carries no fencing token. */
module TurnProtocol {
  import opened Common
  import opened Turns
  import opened TurnInvariants
  import opened Retrieval

  /** Where one call of `upload_attachment` stands. */
  datatype Phase =
    | Prepared | Registered | Linked
    | Started                    // the ingest was started, document reported
    | Lost                       // link refused, about to read again
    | Reported(document: Id)     // answered with a document it did not link
    | Refused                    // the turn took no more uploads
    | Conflict                   // link refused and nothing linked on second reading
    | Broken

  datatype Upload = Upload(turn: Id, attachment: Id, owner: Owner, space: Id, document: Id, phase: Phase)

  datatype System = System(
    db: Tables,
    issued: set<Id>,              // every key ever generated
    claims: map<Id, AnswerClaim>, // by worker: what `claim_ready_answer` handed out, kept forever
    answers: map<Id, Id>,         // assistant message -> worker that persisted it
    linked: map<Id, Id>,          // attachment -> first document linked to it
    uploads: map<Id, Upload>)

  datatype Event =
    | OpenSession(id: Id, owner: Owner, space: Id)
    | DropSession(id: Id, owner: Owner)
    | NewTurn(owner: Owner, session: Id, space: Id, request: Id, turn: Id, ds: seq<Declared>)
    | NewAttachment(turn: Id, owner: Owner, attachment: Id, client: Id)
    | Say(session: Id, owner: Owner, role: MessageRole, id: Id)
    | PlainAnswer(session: Id, owner: Owner, id: Id, cited: seq<(Id, Id)>)
    | NewDocument(document: Id, tenant: Id, space: Id)
    | DocumentMoves(document: Id, status: DocumentStatus)
    | Ignore(turn: Id, attachment: Id, owner: Owner, flag: bool)
    | Cancel(turn: Id, owner: Owner)
    | Claim(worker: Id, turn: Id, owner: Owner)
    | Fail(worker: Id)
    | Persist(worker: Id, id: Id, found: seq<Hit>, hydrated: set<Id>)
    | StartUpload(upload: Id, turn: Id, attachment: Id, owner: Owner, document: Id)
    | RegisterDocument(upload: Id)
    | LinkUpload(upload: Id)
    | LinkThenBreak(upload: Id)
    | StartIngest(upload: Id)
    | Report(upload: Id)
    | Break(upload: Id)

  const EMPTY := System(Tables(map[], map[], map[], map[], map[]), {}, map[], map[], map[], map[])

  // ---------- Events ----------

  /** The keys an event generates. They never repeat. */
  function Keys(e: Event): set<Id> {
    match e
    case OpenSession(id, _, _) => {id}
    case NewTurn(_, _, _, _, turn, ds) => {turn} + (set d <- ds :: d.attachment)
    case NewAttachment(_, _, a, _) => {a}
    case Say(_, _, _, id) => {id}
    case PlainAnswer(_, _, id, _) => {id}
    case NewDocument(d, _, _) => {d}
    case Claim(w, _, _) => {w}
    case Persist(_, id, _, _) => {id}
    case StartUpload(u, _, _, _, d) => {u, d}
    case _ => {}
  }

  predicate KeysDistinct(e: Event) {
    && (e.NewTurn? ==> forall d <- e.ds :: d.attachment != e.turn)
    && (e.StartUpload? ==> e.upload != e.document)
  }

  function DoDrop(s: System, id: Id, o: Owner): System {
    var db' := DeleteSession(s.db, id, o);
    s.(db := db', answers := map a <- s.answers | a in db'.messages :: s.answers[a])
  }

  function DoClaim(s: System, worker: Id, turn: Id, o: Owner): System {
    var (db', claim) := ClaimReadyAnswer(s.db, turn, o);
    if claim.Some? then s.(db := db', claims := s.claims[worker := claim.value]) else s
  }

  function DoFail(s: System, worker: Id): System {
    if worker !in s.claims then s
    else s.(db := FailAnswer(s.db, s.claims[worker].turn, s.claims[worker].owner).0)
  }

  /** What a worker cites: the hits it retrieved within the scope it was handed. */
  function Cited(c: AnswerClaim, found: seq<Hit>, hydrated: set<Id>): seq<(Id, Id)> {
    Cite(Retrieve(c.documents, found, hydrated), hydrated)
  }

  function DoPersist(s: System, worker: Id, id: Id, found: seq<Hit>, hydrated: set<Id>): System {
    if worker !in s.claims then s
    else
      var c := s.claims[worker];
      var r := SaveAssistant(s.db, Some(c.turn), c.session, c.owner, id, Cited(c, found, hydrated));
      if r.Ok? then s.(db := r.value, answers := s.answers[id := worker]) else s
  }

  /** `upload_attachment` up to the choice of a document key. */
  function DoStart(s: System, u: Id, turn: Id, a: Id, o: Owner, d: Id): System {
    if !OwnedAttachment(s.db, turn, a, o) || s.db.messages[turn].role != User then s
    else
      var row := s.db.attachments[a];
      var phase :=
        if row.document.Some? then Reported(row.document.value)
        else if !StatusIs(s.db, turn, {WaitingFiles}) then Refused
        else Prepared;
      s.(uploads := s.uploads[u := Upload(turn, a, o, s.db.sessions[s.db.messages[turn].session].space, d, phase)])
  }

  predicate At(s: System, u: Id, phases: set<Phase>) {
    u in s.uploads && s.uploads[u].phase in phases
  }

  function Move(s: System, u: Id, p: Phase): map<Id, Upload>
    requires u in s.uploads
  {
    s.uploads[u := s.uploads[u].(phase := p)]
  }

  function DoRegister(s: System, u: Id): System {
    if !At(s, u, {Prepared}) then s
    else
      var up := s.uploads[u];
      s.(db := CreateDocument(s.db, up.document, up.owner.tenant, up.space), uploads := Move(s, u, Registered))
  }

  function DoLink(s: System, u: Id, next: Phase): System {
    if !At(s, u, {Registered}) then s
    else
      var up := s.uploads[u];
      var (db', ok) := LinkDocument(s.db, up.turn, up.attachment, up.document, up.owner);
      if ok then s.(db := db', linked := s.linked[up.attachment := up.document], uploads := Move(s, u, next))
      else s.(uploads := Move(s, u, Lost))
  }

  function DoIngest(s: System, u: Id): System {
    if At(s, u, {Linked}) then s.(uploads := Move(s, u, Started)) else s
  }

  function DoReport(s: System, u: Id): System {
    if !At(s, u, {Lost}) then s
    else
      var up := s.uploads[u];
      if OwnedAttachment(s.db, up.turn, up.attachment, up.owner) && s.db.attachments[up.attachment].document.Some?
      then s.(uploads := Move(s, u, Reported(s.db.attachments[up.attachment].document.value)))
      else s.(uploads := Move(s, u, Conflict))
  }

  /** An exception inside the guarded block: `mark_upload_failed`. */
  function DoBreak(s: System, u: Id): System {
    if !At(s, u, {Prepared, Registered, Lost}) then s
    else
      var up := s.uploads[u];
      s.(db := MarkUploadFailed(s.db, up.turn, up.attachment, up.owner).0, uploads := Move(s, u, Broken))
  }

  /** The link was committed but its caller saw an exception. */
  function DoLinkThenBreak(s: System, u: Id): System {
    var s1 := DoLink(s, u, Broken);
    if !At(s, u, {Registered}) then s
    else
      var up := s.uploads[u];
      s1.(db := MarkUploadFailed(s1.db, up.turn, up.attachment, up.owner).0, uploads := Move(s1, u, Broken))
  }

  function OrSame(r: Result<Tables, Error>, db: Tables): Tables {
    if r.Ok? then r.value else db
  }

  function DoOpen(s: System, id: Id, o: Owner, space: Id): System {
    s.(db := CreateSession(s.db, id, o, space))
  }

  /** The service refuses an attachment list that is empty or too long before it calls the repository. */
  function DoNewTurn(s: System, o: Owner, session: Id, space: Id, request: Id, turn: Id, ds: seq<Declared>): System {
    if 1 <= |ds| <= MAX_ATTACHMENTS then
      s.(db := OrSame(CreateTurn(s.db, o, session, space, request, turn, ds), s.db))
    else s
  }

  function DoNewAttachment(s: System, turn: Id, o: Owner, a: Id, client: Id): System {
    var r := AddAttachment(s.db, turn, o, a, client, MAX_ATTACHMENTS);
    if r.Ok? then s.(db := r.value.0) else s
  }

  function DoSay(s: System, session: Id, o: Owner, role: MessageRole, id: Id): System {
    s.(db := OrSame(AddMessage(s.db, session, o, role, id), s.db))
  }

  function DoPlainAnswer(s: System, session: Id, o: Owner, id: Id, cited: seq<(Id, Id)>): System {
    s.(db := OrSame(SaveAssistant(s.db, None, session, o, id, cited), s.db))
  }

  function DoNewDocument(s: System, d: Id, tenant: Id, space: Id): System {
    s.(db := CreateDocument(s.db, d, tenant, space))
  }

  function DoDocumentMoves(s: System, d: Id, status: DocumentStatus): System {
    s.(db := SetDocumentStatus(s.db, d, status))
  }

  function DoIgnore(s: System, turn: Id, a: Id, o: Owner, flag: bool): System {
    s.(db := SetIgnored(s.db, turn, a, o, flag).0)
  }

  function DoCancel(s: System, turn: Id, o: Owner): System {
    s.(db := CancelTurn(s.db, turn, o).0)
  }

  function Effect(s: System, e: Event): System {
    match e
    case OpenSession(id, o, space) => DoOpen(s, id, o, space)
    case DropSession(id, o) => DoDrop(s, id, o)
    case NewTurn(o, session, space, request, turn, ds) => DoNewTurn(s, o, session, space, request, turn, ds)
    case NewAttachment(turn, o, a, client) => DoNewAttachment(s, turn, o, a, client)
    case Say(session, o, role, id) => DoSay(s, session, o, role, id)
    case PlainAnswer(session, o, id, cited) => DoPlainAnswer(s, session, o, id, cited)
    case NewDocument(d, tenant, space) => DoNewDocument(s, d, tenant, space)
    case DocumentMoves(d, status) => DoDocumentMoves(s, d, status)
    case Ignore(turn, a, o, flag) => DoIgnore(s, turn, a, o, flag)
    case Cancel(turn, o) => DoCancel(s, turn, o)
    case Claim(w, turn, o) => DoClaim(s, w, turn, o)
    case Fail(w) => DoFail(s, w)
    case Persist(w, id, found, hydrated) => DoPersist(s, w, id, found, hydrated)
    case StartUpload(u, turn, a, o, d) => DoStart(s, u, turn, a, o, d)
    case RegisterDocument(u) => DoRegister(s, u)
    case LinkUpload(u) => DoLink(s, u, Linked)
    case LinkThenBreak(u) => DoLinkThenBreak(s, u)
    case StartIngest(u) => DoIngest(s, u)
    case Report(u) => DoReport(s, u)
    case Break(u) => DoBreak(s, u)
  }

  /** One transaction by anybody. Events that reuse a generated key do not happen. */
  function Apply(s: System, e: Event): System {
    if Keys(e) !! s.issued && KeysDistinct(e) then Effect(s, e).(issued := s.issued + Keys(e)) else s
  }

  function Run(s: System, events: seq<Event>): System
    decreases |events|
  {
    if events == [] then s else Run(Apply(s, events[0]), events[1..])
  }

  // ---------- Invariants of the protocol ----------

  ghost predicate RowsIssued(t: Tables, ids: set<Id>) {
    && t.sessions.Keys + t.messages.Keys + t.attachments.Keys + t.documents.Keys <= ids
    && t.citations.Keys <= t.messages.Keys
  }

  ghost predicate ProcessesIssued(s: System, ids: set<Id>) {
    && s.claims.Keys + s.uploads.Keys + s.linked.Keys <= ids && s.answers.Keys <= s.db.messages.Keys
    && (forall w <- s.claims :: s.claims[w].turn in ids)
    && (forall u <- s.uploads :: {s.uploads[u].document, s.uploads[u].turn, s.uploads[u].attachment} <= ids)
  }

  ghost predicate IssuedInv(s: System) {
    RowsIssued(s.db, s.issued) && ProcessesIssued(s, s.issued)
  }

  function AnsweredTurn(s: System, a: Id): Id
    requires a in s.answers && s.answers[a] in s.claims
  {
    s.claims[s.answers[a]].turn
  }

  ghost predicate AnswerOk(s: System, a: Id)
    requires a in s.answers
  {
    && s.answers[a] in s.claims && a in s.db.messages && s.db.messages[a].status.None?
    && var turn := AnsweredTurn(s, a);
       && turn in s.db.messages && s.db.messages[turn].status == Some(Completed)
       && s.db.messages[turn].session == s.db.messages[a].session
  }

  ghost predicate HasAnswer(s: System, turn: Id) {
    exists a <- s.answers :: s.answers[a] in s.claims && AnsweredTurn(s, a) == turn
  }

  /** A turn has one persisted answer if it is completed, and none otherwise. */
  ghost predicate AnswersInv(s: System) {
    && (forall a <- s.answers :: AnswerOk(s, a))
    && (forall a <- s.answers, b <- s.answers :: AnsweredTurn(s, a) == AnsweredTurn(s, b) ==> a == b)
    && (forall m <- s.db.messages :: s.db.messages[m].status == Some(Completed) ==> HasAnswer(s, m))
  }

  ghost predicate CitationsOk(scope: set<Id>, cs: seq<Citation>) {
    forall i :: 0 <= i < |cs| ==> cs[i].document in scope && cs[i].rank == i + 1
  }

  /** Claims never have an empty scope, and answers cite only within the scope of their claim. */
  ghost predicate ScopeInv(s: System) {
    && (forall w <- s.claims :: s.claims[w].documents != {})
    && (forall a <- s.answers :: s.answers[a] in s.claims)
    && (forall a <- s.answers ::
          a in s.db.citations ==> CitationsOk(s.claims[s.answers[a]].documents, s.db.citations[a]))
  }

  ghost predicate UploadOk(s: System, u: Id)
    requires u in s.uploads
  {
    var up := s.uploads[u];
    && (up.attachment in s.db.attachments ==>
          && OwnedAttachment(s.db, up.turn, up.attachment, up.owner)
          && s.db.attachments[up.attachment].space == up.space)
    && (up.phase == Registered ==>
          up.document in s.db.documents
          && s.db.documents[up.document].tenant == up.owner.tenant && s.db.documents[up.document].space == up.space)
    && (up.phase == Prepared ==> up.document !in s.db.documents)
    && (up.phase in {Linked, Started} ==> up.attachment in s.linked && s.linked[up.attachment] == up.document)
    && (up.phase == Lost && up.attachment in s.db.attachments ==> up.attachment in s.linked)
    && (up.phase.Reported? ==> up.attachment in s.linked && s.linked[up.attachment] == up.phase.document)
    && (up.phase == Conflict ==> up.attachment !in s.db.attachments)
  }

  /** `linked` is the history of the document column, and no two uploads share a document. */
  ghost predicate UploadsInv(s: System) {
    && (forall a <- s.db.attachments :: s.db.attachments[a].document
          == if a in s.linked then Some(s.linked[a]) else None)
    && (forall u <- s.uploads :: UploadOk(s, u))
    && (forall u <- s.uploads, v <- s.uploads :: s.uploads[u].document == s.uploads[v].document ==> u == v)
  }

  ghost predicate Inv(s: System) {
    TableInv(s.db) && IssuedInv(s) && AnswersInv(s) && ScopeInv(s) && UploadsInv(s)
  }
}
