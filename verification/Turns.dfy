/** The tables behind attachment turns and every transaction on them, each as one atomic function. */
module Turns {
  import opened Common

  datatype Owner = Owner(tenant: Id, user: Id)

  datatype Session = Session(owner: Owner, space: Id, count: nat)

  datatype MessageRole = User | Assistant

  datatype TurnStatus = WaitingFiles | Answering | Completed | AnswerFailed | Cancelled

  datatype Message = Message(session: Id, owner: Owner, role: MessageRole, status: Option<TurnStatus>,
                             request: Option<Id>)

  datatype UploadStatus = Pending | Uploaded | Failed

  datatype Attachment = Attachment(turn: Id, tenant: Id, space: Id, client: Id, document: Option<Id>,
                                   upload: UploadStatus, ignored: bool)

  datatype DocumentStatus = DocPending | DocIndexed | DocFailed | DocDeleting | DocDeleted

  datatype Document = Document(tenant: Id, space: Id, status: DocumentStatus)

  datatype Citation = Citation(document: Id, chunk: Id, rank: nat)

  datatype Tables = Tables(
    sessions: map<Id, Session>,
    messages: map<Id, Message>,
    attachments: map<Id, Attachment>,
    documents: map<Id, Document>,
    citations: map<Id, seq<Citation>>)    // by assistant message

  const MAX_ATTACHMENTS := 5

  // ---------- Reading ----------

  /** The join of a message with its session under one owner. */
  predicate Owned(t: Tables, turn: Id, o: Owner) {
    && turn in t.messages && t.messages[turn].owner == o
    && t.messages[turn].session in t.sessions && t.sessions[t.messages[turn].session].owner == o
  }

  predicate StatusIs(t: Tables, turn: Id, allowed: set<TurnStatus>) {
    turn in t.messages && t.messages[turn].status.Some? && t.messages[turn].status.value in allowed
  }

  function AttachmentsOf(t: Tables, turn: Id): set<Id> {
    set a <- t.attachments | t.attachments[a].turn == turn
  }

  function RowsOf(t: Tables, session: Id): set<Id> {
    set m <- t.messages | t.messages[m].session == session
  }

  // ---------- Readiness, twice ----------

  datatype ViewStatus = PendingUpload | Ingesting | Indexed | ViewFailed | Ignored

  datatype View = View(status: ViewStatus, ignored: bool)

  datatype Readiness = NotYet | Blocked | Ready | Empty

  /** `_row_to_attachment`, with the document joined by key and tenant. */
  function ToView(t: Tables, a: Attachment): View {
    var known := a.document.Some? && a.document.value in t.documents
                 && t.documents[a.document.value].tenant == a.tenant;
    var status :=
      if a.ignored then Ignored
      else if a.upload == Failed then ViewFailed
      else if a.upload == Pending then PendingUpload
      else if known && t.documents[a.document.value].status == DocIndexed then Indexed
      else if known && t.documents[a.document.value].status == DocFailed then ViewFailed
      else Ingesting;
    View(status, a.ignored)
  }

  /** `compute_readiness`. */
  function ComputeReadiness(views: seq<View>): Readiness {
    var active := set i | 0 <= i < |views| && !views[i].ignored && views[i].status != Ignored;
    if active == {} then Empty
    else if exists i <- active :: views[i].status == ViewFailed then Blocked
    else if forall i <- active :: views[i].status == Indexed then Ready
    else NotYet
  }

  /** The join used by the guard of `claim_ready_answer`: by key, tenant and space. */
  predicate JoinsIndexed(t: Tables, a: Attachment) {
    && a.document.Some? && a.document.value in t.documents
    && t.documents[a.document.value].tenant == a.tenant && t.documents[a.document.value].space == a.space
    && t.documents[a.document.value].status == DocIndexed
  }

  predicate Usable(t: Tables, turn: Id, a: Id) {
    && a in t.attachments && t.attachments[a].turn == turn && turn in t.messages
    && t.attachments[a].tenant == t.messages[turn].owner.tenant && !t.attachments[a].ignored
    && t.attachments[a].upload == Uploaded && JoinsIndexed(t, t.attachments[a])
  }

  /** EXISTS (...) AND NOT EXISTS (...) */
  predicate ClaimGuard(t: Tables, turn: Id) {
    && turn in t.messages
    && (exists a <- t.attachments :: Usable(t, turn, a))
    && !(exists a <- t.attachments ::
           && t.attachments[a].turn == turn && t.attachments[a].tenant == t.messages[turn].owner.tenant
           && !t.attachments[a].ignored
           && (t.attachments[a].upload != Uploaded || !JoinsIndexed(t, t.attachments[a])))
  }

  // ---------- Transactions ----------

  datatype Error = NotFound | Integrity | Rejected

  datatype Declared = Declared(attachment: Id, client: Id)

  predicate DistinctDeclarations(ds: seq<Declared>) {
    forall i, j :: 0 <= i < j < |ds| ==> ds[i].attachment != ds[j].attachment && ds[i].client != ds[j].client
  }

  /** One more message in a session: the INSERT and the increment of `message_count`. */
  function AddRow(t: Tables, id: Id, m: Message): Tables
    requires m.session in t.sessions
  {
    var s := t.sessions[m.session];
    t.(messages := t.messages[id := m], sessions := t.sessions[m.session := s.(count := s.count + 1)])
  }

  predicate SessionOwned(t: Tables, session: Id, o: Owner) {
    session in t.sessions && t.sessions[session].owner == o
  }

  predicate RequestRow(t: Tables, o: Owner, request: Id, m: Id) {
    m in t.messages && t.messages[m].owner == o && t.messages[m].request == Some(request)
  }

  predicate Requested(t: Tables, o: Owner, request: Id) {
    exists m <- t.messages :: RequestRow(t, o, request, m)
  }

  function Placeholders(o: Owner, space: Id, turn: Id, ds: seq<Declared>): map<Id, Attachment>
    requires DistinctDeclarations(ds)
  {
    map i | 0 <= i < |ds| :: ds[i].attachment := Attachment(turn, o.tenant, space, ds[i].client, None, Pending, false)
  }

  /** `create_turn`: a repeated client request changes nothing. */
  function CreateTurn(t: Tables, o: Owner, session: Id, space: Id, request: Id, turn: Id, ds: seq<Declared>)
    : Result<Tables, Error>
  {
    if !SessionOwned(t, session, o) || t.sessions[session].space != space then Err(NotFound)
    else if Requested(t, o, request) then Ok(t)
    else if turn in t.messages || !DistinctDeclarations(ds) || (exists d <- ds :: d.attachment in t.attachments) then
      Err(Integrity)
    else
      var t' := AddRow(t, turn, Message(session, o, User, Some(WaitingFiles), Some(request)));
      Ok(t'.(attachments := t.attachments + Placeholders(o, space, turn, ds)))
  }

  /** `add_attachment`. */
  function AddAttachment(t: Tables, turn: Id, o: Owner, id: Id, client: Id, max: int)
    : (r: Result<(Tables, bool), Error>)
  {
    if !Owned(t, turn, o) || !StatusIs(t, turn, {WaitingFiles}) then Ok((t, false))
    else if exists a <- AttachmentsOf(t, turn) :: t.attachments[a].client == client then Ok((t, true))
    else if |AttachmentsOf(t, turn)| >= max then Ok((t, false))
    else if id in t.attachments then Err(Integrity)
    else
      var space := t.sessions[t.messages[turn].session].space;
      var row := Attachment(turn, o.tenant, space, client, None, Pending, false);
      Ok((t.(attachments := t.attachments[id := row]), true))
  }

  /** The row a statement on one attachment of an owned turn is about. */
  predicate OwnedAttachment(t: Tables, turn: Id, a: Id, o: Owner) {
    a in t.attachments && t.attachments[a].turn == turn && t.attachments[a].tenant == o.tenant && Owned(t, turn, o)
  }

  predicate CanLink(t: Tables, turn: Id, a: Id, d: Id, o: Owner) {
    && OwnedAttachment(t, turn, a, o) && d in t.documents
    && t.documents[d].tenant == o.tenant && t.documents[d].space == t.attachments[a].space
    && (t.attachments[a].document.None? || t.attachments[a].document == Some(d))
  }

  /** `link_document`. */
  function LinkDocument(t: Tables, turn: Id, a: Id, d: Id, o: Owner): (Tables, bool) {
    if CanLink(t, turn, a, d, o) then
      (t.(attachments := t.attachments[a := t.attachments[a].(document := Some(d), upload := Uploaded)]), true)
    else (t, false)
  }

  /** `mark_upload_failed`. */
  function MarkUploadFailed(t: Tables, turn: Id, a: Id, o: Owner): (Tables, bool) {
    if OwnedAttachment(t, turn, a, o) && t.attachments[a].document.None?
       && t.attachments[a].upload in {Pending, Failed} then
      (t.(attachments := t.attachments[a := t.attachments[a].(upload := Failed)]), true)
    else (t, false)
  }

  /** `set_ignored`: no status guard of its own. */
  function SetIgnored(t: Tables, turn: Id, a: Id, o: Owner, ignored: bool): (Tables, bool) {
    if OwnedAttachment(t, turn, a, o) then
      (t.(attachments := t.attachments[a := t.attachments[a].(ignored := ignored)]), true)
    else (t, false)
  }

  function SetStatus(t: Tables, turn: Id, s: TurnStatus): Tables
    requires turn in t.messages
  {
    t.(messages := t.messages[turn := t.messages[turn].(status := Some(s))])
  }

  /** `cancel_turn`. */
  function CancelTurn(t: Tables, turn: Id, o: Owner): (Tables, bool) {
    if Owned(t, turn, o) && StatusIs(t, turn, {WaitingFiles, AnswerFailed}) then (SetStatus(t, turn, Cancelled), true)
    else (t, false)
  }

  /** `fail_answer`. */
  function FailAnswer(t: Tables, turn: Id, o: Owner): (Tables, bool) {
    if Owned(t, turn, o) && StatusIs(t, turn, {Answering}) then (SetStatus(t, turn, AnswerFailed), true)
    else (t, false)
  }

  datatype AnswerClaim = AnswerClaim(turn: Id, session: Id, owner: Owner, space: Id, documents: set<Id>)

  /** The scope query of `claim_ready_answer`. */
  function IndexedScope(t: Tables, turn: Id): set<Id> {
    set a <- t.attachments | Usable(t, turn, a) :: t.attachments[a].document.value
  }

  /** `claim_ready_answer`. */
  function ClaimReadyAnswer(t: Tables, turn: Id, o: Owner): (Tables, Option<AnswerClaim>) {
    if Owned(t, turn, o) && t.messages[turn].role == User && StatusIs(t, turn, {WaitingFiles, AnswerFailed})
       && ClaimGuard(t, turn)
    then
      var m := t.messages[turn];
      (SetStatus(t, turn, Answering),
       Some(AnswerClaim(turn, m.session, o, t.sessions[m.session].space, IndexedScope(t, turn))))
    else (t, None)
  }

  /** The rows of `message_citations` for an answer: ranks follow the order of the hits. */
  function Ranked(cited: seq<(Id, Id)>): (r: seq<Citation>)
    ensures |r| == |cited|
    ensures forall i :: 0 <= i < |r| ==> r[i] == Citation(cited[i].0, cited[i].1, i + 1)
  {
    seq(|cited|, i requires 0 <= i < |cited| => Citation(cited[i].0, cited[i].1, i + 1))
  }

  /** The row of an answer, its citations, and the count. */
  function AnswerRows(t: Tables, session: Id, o: Owner, id: Id, cited: seq<(Id, Id)>): Tables
    requires session in t.sessions
  {
    var t1 := AddRow(t, id, Message(session, o, Assistant, None, None));
    if cited == [] then t1 else t1.(citations := t1.citations[id := Ranked(cited)])
  }

  /** `save_assistant_with_citations`: all of it, or nothing. */
  function SaveAssistant(t: Tables, source: Option<Id>, session: Id, o: Owner, id: Id, cited: seq<(Id, Id)>)
    : (r: Result<Tables, Error>)
  {
    if !SessionOwned(t, session, o) then Err(NotFound)
    else if id in t.messages then Err(Integrity)
    else
      var t2 := AnswerRows(t, session, o, id, cited);
      match source
      case None => Ok(t2)
      case Some(turn) =>
        if Owned(t2, turn, o) && t2.messages[turn].session == session && t2.messages[turn].role == User
           && StatusIs(t2, turn, {Answering})
        then Ok(SetStatus(t2, turn, Completed))
        else Err(Rejected)
  }

  /** `add_message`. */
  function AddMessage(t: Tables, session: Id, o: Owner, role: MessageRole, id: Id): Result<Tables, Error> {
    if !SessionOwned(t, session, o) || id in t.messages then Err(Integrity)
    else Ok(AddRow(t, id, Message(session, o, role, None, None)))
  }

  /** `create_document`: a second insert of the same key does nothing. */
  function CreateDocument(t: Tables, d: Id, tenant: Id, space: Id): Tables {
    if d in t.documents then t else t.(documents := t.documents[d := Document(tenant, space, DocPending)])
  }

  /** `update_document_status` and `reset_failed_document`, as far as the status column goes. */
  function SetDocumentStatus(t: Tables, d: Id, s: DocumentStatus): Tables {
    if d in t.documents then t.(documents := t.documents[d := t.documents[d].(status := s)]) else t
  }

  function CreateSession(t: Tables, session: Id, o: Owner, space: Id): Tables {
    if session in t.sessions then t else t.(sessions := t.sessions[session := Session(o, space, 0)])
  }

  /** `delete` of a session, with the cascades of the schema. */
  function DeleteSession(t: Tables, session: Id, o: Owner): Tables {
    if !SessionOwned(t, session, o) then t
    else
      var gone := RowsOf(t, session);
      Tables(t.sessions - {session}, t.messages - gone,
             map a <- t.attachments | t.attachments[a].turn !in gone :: t.attachments[a],
             t.documents, t.citations - gone)
  }
}
