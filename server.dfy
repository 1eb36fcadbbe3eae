/**
 * The HTTP routes of server/server.js that carry logic: creating a session with
 * its invitees, reading a session, and exporting it with per-group tallies.
 *
 * A route answers with `Ok(body)` or with an HTTP status and an error message.
 * Fresh session ids and timestamps are parameters; the magic links built from
 * the invitees are not modelled (they are signed tokens).
 */
module Server {
  import opened Wrappers
  import opened Seqs
  import opened Schema
  import opened Queries
  import opened Protocol
  import opened Store
  import opened Engine
  import opened Text

  datatype Reply<T> = Ok(body: T) | Fail(status: int, error: string)

  // ------------------------------------------------------------ create session

  /** A JSON scalar; a number is a `real`, as JSON does not tell integers apart. */
  datatype Json = JNull | JBool(b: bool) | JNum(x: real) | JStr(s: string)

  /**
   * The JSON body of `POST /api/session/create`; an absent or non-array list
   * is `None`, and an absent quota is `JNull` (both fail the same checks).
   */
  datatype CreateRequest = CreateRequest(
    emails: Option<seq<string>>,
    facilitatorEmail: Option<string>,
    votesPerPerson: Json)

  /** One entry of the participant list the route builds: an email and its role. */
  datatype Invitee = Invitee(email: string, role: string)

  /** What a successful creation answers with (the magic links are derived from `invitees`). */
  datatype Created = Created(sessionId: string, invitees: seq<Invitee>)

  const MsgTooFewEmails: string := "At least 2 emails required"
  const MsgNoFacilitator: string := "Facilitator must be in participant list"
  const MsgBadQuota: string := "Invalid votes per person"
  const MsgCreateFailed: string := "Failed to create session"

  predicate EnoughEmails(req: CreateRequest) {
    req.emails.Some? && |req.emails.value| >= 2
  }

  predicate FacilitatorListed(req: CreateRequest)
    requires req.emails.Some?
  {
    Truthy(req.facilitatorEmail) && req.facilitatorEmail.value in req.emails.value
  }

  /** JavaScript truthiness of a JSON value. */
  predicate JsonTruthy(v: Json) {
    match v
    case JNull => false
    case JBool(b) => b
    case JNum(x) => x != 0.0
    case JStr(s) => s != ""
  }

  /** JavaScript's `v < 1`: `null` is 0, `true` is 1, a string goes through `Number`, and NaN compares false. */
  predicate BelowOne(v: Json) {
    match v
    case JNull => true
    case JBool(b) => !b
    case JNum(x) => x < 1.0
    case JStr(s) => ToNumber(s).Some? && ToNumber(s).value < 1.0
  }

  /** `!votesPerPerson || votesPerPerson < 1` is false. */
  predicate QuotaGiven(req: CreateRequest) {
    JsonTruthy(req.votesPerPerson) && !BelowOne(req.votesPerPerson)
  }

  /**
   * What `sessionQueries.create.run` stores for the quota: a number as sent, a
   * string as the column's affinity keeps it; `None` where the statement
   * throws (the driver binds no boolean, and `null` breaks NOT NULL).
   */
  function BoundQuota(v: Json): (r: Option<Stored>)
    ensures r.None? <==> v.JNull? || v.JBool?
    ensures v.JNum? ==> r == Some(Num(v.x))
    ensures v.JStr? && r.Some? && r.value.Num? ==> ToNumber(v.s) == Some(r.value.x)
  {
    match v
    case JNum(x) => Some(Num(x))
    case JStr(s) => Some(Affinity(s))
    case _ => None
  }

  /** A request every validation accepts. */
  predicate AcceptsCreate(req: CreateRequest) {
    EnoughEmails(req) && FacilitatorListed(req) && QuotaGiven(req)
  }

  /** The 400 message of the first validation that fails, tried in the route's order. */
  function CreateRejection(req: CreateRequest): (r: Option<string>)
    ensures r.None? <==> AcceptsCreate(req)
    ensures r == Some(MsgTooFewEmails) <==> !EnoughEmails(req)
    ensures r == Some(MsgNoFacilitator) <==> EnoughEmails(req) && !FacilitatorListed(req)
    ensures r == Some(MsgBadQuota) <==> EnoughEmails(req) && FacilitatorListed(req) && !QuotaGiven(req)
  {
    if !EnoughEmails(req) then Some(MsgTooFewEmails)
    else if !FacilitatorListed(req) then Some(MsgNoFacilitator)
    else if !QuotaGiven(req) then Some(MsgBadQuota)
    else None
  }

  function RoleFor(email: string, facilitatorEmail: string): string {
    if email == facilitatorEmail then Facilitator else "participant"
  }

  /** The invitee list: every email, in order, with its role. */
  function Invitees(emails: seq<string>, facilitatorEmail: string): (r: seq<Invitee>)
    ensures |r| == |emails|
    ensures forall i :: 0 <= i < |r| ==> r[i].email == emails[i] && IsRole(r[i].role)
    ensures forall i :: 0 <= i < |r| ==> (r[i].role == Facilitator <==> emails[i] == facilitatorEmail)
  {
    Map((e: string) => Invitee(e, RoleFor(e, facilitatorEmail)), emails)
  }

  function IsFacilitatorInvitee(): Invitee -> bool { (e: Invitee) => e.role == Facilitator }
  function IsEmail(email: string): string -> bool { (e: string) => e == email }

  predicate NoRepeats(emails: seq<string>) {
    forall i, j :: 0 <= i < j < |emails| ==> emails[i] != emails[j]
  }

  /** A value that occurs in a list without repeats occurs exactly once. */
  lemma {:induction false} OccursOnce(emails: seq<string>, email: string)
    requires NoRepeats(emails) && email in emails
    ensures Count(IsEmail(email), emails) == 1
  {
    if emails[0] == email {
      forall x | x in emails[1..] ensures x != email {
        var k :| 0 <= k < |emails[1..]| && emails[1..][k] == x;
        assert emails[k + 1] == x;
      }
      FilterNone(IsEmail(email), emails[1..]);
    } else {
      OccursOnce(emails[1..], email);
    }
  }

  /** With distinct emails that include the facilitator, exactly one invitee is the facilitator. */
  lemma ExactlyOneFacilitator(emails: seq<string>, facilitatorEmail: string)
    requires NoRepeats(emails) && facilitatorEmail in emails
    ensures Count(IsFacilitatorInvitee(), Invitees(emails, facilitatorEmail)) == 1
  {
    CountOfMap(IsFacilitatorInvitee(), (e: string) => Invitee(e, RoleFor(e, facilitatorEmail)),
               IsEmail(facilitatorEmail), emails);
    OccursOnce(emails, facilitatorEmail);
  }

  function InviteeOf(p: Participant): Invitee { Invitee(p.email, p.role) }

  /**
   * The participant inserts, one per invitee in order. The first insert the
   * store refuses (a repeated email hits UNIQUE(session_id, email)) throws, and
   * the rows inserted before it stay: there is no transaction.
   */
  function InsertInvitees(t: Tables, sid: string, invitees: seq<Invitee>): (w: Write)
    ensures w.tables == t.(participants := w.tables.participants, nextParticipantId := w.tables.nextParticipantId)
    ensures t.participants <= w.tables.participants
    ensures forall p :: p in w.tables.participants[|t.participants|..] ==>
              p.sessionId == sid && p.status == Pending && p.joinedAt == None
    decreases |invitees|
  {
    if invitees == [] then Write(t, true)
    else
      var e := invitees[0];
      if !CanInsertParticipant(t, sid, e.email, e.role) then Write(t, false)
      else
        var row := NewParticipant(t, sid, e.email, e.role);
        var w := InsertInvitees(t.(participants := t.participants + [row], nextParticipantId := t.nextParticipantId + 1),
                                sid, invitees[1..]);
        assert w.tables.participants[|t.participants|..] == [row] + w.tables.participants[|t.participants| + 1..];
        w
  }

  /** The session has no participant whose email is among `invitees`. */
  ghost predicate UnclaimedEmails(t: Tables, sid: string, invitees: seq<Invitee>) {
    forall p, i :: p in t.participants && 0 <= i < |invitees| && p.sessionId == sid ==> p.email != invitees[i].email
  }

  /** Invitees with distinct emails and valid roles, none already in the session, are all inserted, in order. */
  lemma {:induction false} InsertInviteesAll(t: Tables, sid: string, invitees: seq<Invitee>)
    requires sid in t.sessions
    requires forall i :: 0 <= i < |invitees| ==> IsRole(invitees[i].role)
    requires forall i, j :: 0 <= i < j < |invitees| ==> invitees[i].email != invitees[j].email
    requires UnclaimedEmails(t, sid, invitees)
    ensures InsertInvitees(t, sid, invitees).ok
    ensures Map(InviteeOf, InsertInvitees(t, sid, invitees).tables.participants[|t.participants|..]) == invitees
    decreases |invitees|
  {
    var w := InsertInvitees(t, sid, invitees);
    if invitees == [] {
      assert w.tables.participants[|t.participants|..] == [];
    } else {
      var e := invitees[0];
      var row := NewParticipant(t, sid, e.email, e.role);
      var t1 := t.(participants := t.participants + [row], nextParticipantId := t.nextParticipantId + 1);
      FirstInviteeFits(t, sid, invitees);
      UnclaimedAfterFirst(t, sid, invitees, row);
      InsertInviteesAll(t1, sid, invitees[1..]);
      InsertedAfterFirst(t, t1, sid, invitees);
    }
  }

  lemma FirstInviteeFits(t: Tables, sid: string, invitees: seq<Invitee>)
    requires sid in t.sessions && invitees != [] && IsRole(invitees[0].role)
    requires UnclaimedEmails(t, sid, invitees)
    ensures CanInsertParticipant(t, sid, invitees[0].email, invitees[0].role)
  {
  }

  lemma UnclaimedAfterFirst(t: Tables, sid: string, invitees: seq<Invitee>, row: Participant)
    requires invitees != [] && row.email == invitees[0].email
    requires forall i, j :: 0 <= i < j < |invitees| ==> invitees[i].email != invitees[j].email
    requires UnclaimedEmails(t, sid, invitees)
    ensures UnclaimedEmails(t.(participants := t.participants + [row], nextParticipantId := t.nextParticipantId + 1), sid, invitees[1..])
  {
    var rest := invitees[1..];
    forall p, i | p in t.participants + [row] && 0 <= i < |rest| && p.sessionId == sid
      ensures p.email != rest[i].email
    {
      assert rest[i] == invitees[i + 1];
    }
  }

  /** The rows added for the whole list are the first invitee's row, then those added for the rest. */
  lemma InsertedAfterFirst(t: Tables, t1: Tables, sid: string, invitees: seq<Invitee>)
    requires invitees != [] && CanInsertParticipant(t, sid, invitees[0].email, invitees[0].role)
    requires t1 == t.(participants := t.participants + [NewParticipant(t, sid, invitees[0].email, invitees[0].role)],
                      nextParticipantId := t.nextParticipantId + 1)
    requires InsertInvitees(t1, sid, invitees[1..]).ok
    requires Map(InviteeOf, InsertInvitees(t1, sid, invitees[1..]).tables.participants[|t1.participants|..]) == invitees[1..]
    ensures InsertInvitees(t, sid, invitees).ok
    ensures Map(InviteeOf, InsertInvitees(t, sid, invitees).tables.participants[|t.participants|..]) == invitees
  {
    var row := NewParticipant(t, sid, invitees[0].email, invitees[0].role);
    var w1 := InsertInvitees(t1, sid, invitees[1..]);
    InsertInviteesUnfold(t, t1, sid, invitees, 0);
    assert invitees[0..] == invitees;
    var ps := w1.tables.participants;
    var n := |t.participants|;
    assert t1.participants <= ps && t1.participants[n] == row;
    assert ps[n] == row && InviteeOf(row) == invitees[0];
    MapSuffixCons(InviteeOf, ps, n, invitees[1..]);
    assert invitees == [invitees[0]] + invitees[1..];
  }

  /** What the route leaves in the store and what it answers. */
  datatype CreateOutcome = CreateOutcome(tables: Tables, reply: Reply<Created>)

  /** `POST /api/session/create`, with `sid` the fresh session id and `now` the clock. */
  function CreateSessionStep(t: Tables, req: CreateRequest, sid: string, now: int): (o: CreateOutcome)
    ensures o.reply.Fail? ==> o.reply.status == 400 || o.reply == Fail(500, MsgCreateFailed)
    ensures o.reply.Fail? && o.reply.status == 400 ==> o.tables == t && CreateRejection(req).Some?
    ensures o.reply.Ok? ==> AcceptsCreate(req) && sid !in t.sessions && sid in o.tables.sessions
    ensures o.reply.Ok? ==> o.reply.body == Created(sid, Invitees(req.emails.value, req.facilitatorEmail.value))
    ensures o.reply.Ok? ==> BoundQuota(req.votesPerPerson).Some?
    ensures o.reply.Ok? ==>
              o.tables.sessions[sid] == Session(sid, req.facilitatorEmail.value, BoundQuota(req.votesPerPerson).value, InitialPhase, now, now)
    ensures BoundQuota(req.votesPerPerson).None? ==> o.tables == t
  {
    var rejection := CreateRejection(req);
    var quota := BoundQuota(req.votesPerPerson);
    if rejection.Some? then CreateOutcome(t, Fail(400, rejection.value))
    else if quota.None? || sid in t.sessions then CreateOutcome(t, Fail(500, MsgCreateFailed))
    else
      var f := req.facilitatorEmail.value;
      var t1 := t.(sessions := t.sessions[sid := Session(sid, f, quota.value, InitialPhase, now, now)]);
      var invitees := Invitees(req.emails.value, f);
      var w := InsertInvitees(t1, sid, invitees);
      CreateOutcome(w.tables, if w.ok then Ok(Created(sid, invitees)) else Fail(500, MsgCreateFailed))
  }

  /**
   * A valid request with distinct emails creates the session, and its roster is
   * exactly the invitee list, in order, every member pending and exactly one of
   * them the facilitator.
   */
  lemma CreateDistinctEmails(t: Tables, req: CreateRequest, sid: string, now: int)
    requires ValidTables(t) && AcceptsCreate(req) && sid !in t.sessions
    requires !req.votesPerPerson.JBool?
    requires NoRepeats(req.emails.value)
    ensures var o := CreateSessionStep(t, req, sid, now);
      && o.reply.Ok?
      && Map(InviteeOf, ParticipantsOf(o.tables.participants, sid)) == o.reply.body.invitees
      && (forall p :: p in ParticipantsOf(o.tables.participants, sid) ==> p.status == Pending && p.joinedAt == None)
      && Count(IsFacilitatorInvitee(), o.reply.body.invitees) == 1
  {
    var f := req.facilitatorEmail.value;
    var t1 := t.(sessions := t.sessions[sid := Session(sid, f, BoundQuota(req.votesPerPerson).value, InitialPhase, now, now)]);
    var invitees := Invitees(req.emails.value, f);
    assert forall p :: p in t1.participants ==> p.sessionId != sid;
    InsertInviteesAll(t1, sid, invitees);
    RosterOfNewSession(t1, sid, invitees);
    ExactlyOneFacilitator(req.emails.value, f);
  }

  /** In a session that had no participants, the roster is exactly what the inserts added. */
  lemma RosterOfNewSession(t: Tables, sid: string, invitees: seq<Invitee>)
    requires forall p :: p in t.participants ==> p.sessionId != sid
    ensures var ps := InsertInvitees(t, sid, invitees).tables.participants;
      ParticipantsOf(ps, sid) == ps[|t.participants|..]
  {
    var ps := InsertInvitees(t, sid, invitees).tables.participants;
    var added := ps[|t.participants|..];
    assert ps == t.participants + added;
    FilterAppend(ParticipantInSession(sid), t.participants, added);
    FilterKeepsAll(ParticipantInSession(sid), added);
    FilterNone(ParticipantInSession(sid), t.participants);
  }

  /** A new session has no votes yet, so adding it keeps every quota. */
  lemma AddSessionKeepsQuota(sessions: map<string, Session>, votes: seq<Vote>, row: Session)
    requires QuotaRespected(sessions, votes) && row.id !in sessions
    requires forall v :: v in votes ==> v.sessionId in sessions
    ensures QuotaRespected(sessions[row.id := row], votes)
  {
  }

  /** The route as the server runs it: validation, the session insert, then one insert per invitee. */
  method CreateSession(db: Database, req: CreateRequest, sid: string, now: int) returns (r: Reply<Created>)
    requires db.Valid() && QuotaRespected(db.sessions, db.votes)
    modifies db
    ensures db.Valid() && QuotaRespected(db.sessions, db.votes)
    ensures CreateOutcome(db.Contents(), r) == CreateSessionStep(old(db.Contents()), req, sid, now)
  {
    var rejection := CreateRejection(req);
    if rejection.Some? {
      return Fail(400, rejection.value);
    }
    var quota := BoundQuota(req.votesPerPerson);
    if quota.None? {
      return Fail(500, MsgCreateFailed);
    }
    var emails := req.emails.value;
    var f := req.facilitatorEmail.value;
    var created := db.CreateSession(sid, f, quota.value, now, now);
    if !created {
      return Fail(500, MsgCreateFailed);
    }
    AddSessionKeepsQuota(old(db.sessions), db.votes, db.sessions[sid]);
    var invitees := Invitees(emails, f);
    var ok := InsertEach(db, sid, invitees);
    r := if ok then Ok(Created(sid, invitees)) else Fail(500, MsgCreateFailed);
  }

  /** One accepted step of `InsertInvitees` on a suffix of the list. */
  lemma InsertInviteesUnfold(t: Tables, t1: Tables, sid: string, invitees: seq<Invitee>, i: nat)
    requires i < |invitees| && CanInsertParticipant(t, sid, invitees[i].email, invitees[i].role)
    requires t1 == t.(participants := t.participants + [NewParticipant(t, sid, invitees[i].email, invitees[i].role)],
                      nextParticipantId := t.nextParticipantId + 1)
    ensures InsertInvitees(t, sid, invitees[i..]) == InsertInvitees(t1, sid, invitees[i + 1..])
  {
    assert invitees[i..][0] == invitees[i] && invitees[i..][1..] == invitees[i + 1..];
  }

  /** The `forEach` over the invitees; a refused insert throws out of the loop. */
  method InsertEach(db: Database, sid: string, invitees: seq<Invitee>) returns (ok: bool)
    requires db.Valid()
    modifies db
    ensures db.Valid()
    ensures db.sessions == old(db.sessions) && db.votes == old(db.votes)
    ensures Write(db.Contents(), ok) == InsertInvitees(old(db.Contents()), sid, invitees)
  {
    ghost var t0 := db.Contents();
    var i := 0;
    while i < |invitees|
      invariant 0 <= i <= |invitees|
      invariant db.Valid()
      invariant db.sessions == t0.sessions && db.votes == t0.votes
      invariant InsertInvitees(t0, sid, invitees) == InsertInvitees(db.Contents(), sid, invitees[i..])
    {
      var e := invitees[i];
      ghost var cur := db.Contents();
      ok := db.CreateParticipant(sid, e.email, e.role);
      if !ok {
        assert invitees[i..][0] == e;
        return;
      }
      InsertInviteesUnfold(cur, db.Contents(), sid, invitees, i);
      i := i + 1;
    }
    ok := true;
  }

  /**
   * As written, a repeated email makes the second insert of that email throw
   * after the session row and the earlier invitees are stored: the caller gets
   * a 500, yet the session exists, here with no facilitator at all.
   */
  lemma RepeatedEmailLeavesPartialSession()
    ensures var req := CreateRequest(Some(["b", "b", "a"]), Some("a"), JNum(3.0));
      var o := CreateSessionStep(EmptyTables, req, "s", 0);
      && AcceptsCreate(req)
      && o.reply == Fail(500, MsgCreateFailed)
      && "s" in o.tables.sessions
      && ParticipantsOf(o.tables.participants, "s") == [Participant(1, "s", "b", "participant", Pending, None)]
  {
    var req := CreateRequest(Some(["b", "b", "a"]), Some("a"), JNum(3.0));
    var invitees := Invitees(["b", "b", "a"], "a");
    assert invitees == [Invitee("b", "participant"), Invitee("b", "participant"), Invitee("a", Facilitator)];
    var t1 := EmptyTables.(sessions := map["s" := Session("s", "a", Num(3.0), InitialPhase, 0, 0)]);
    var row := Participant(1, "s", "b", "participant", Pending, None);
    var t2 := t1.(participants := [row], nextParticipantId := 2);
    assert InsertInvitees(t1, "s", invitees) == InsertInvitees(t2, "s", invitees[1..]);
    assert !CanInsertParticipant(t2, "s", "b", "participant");
    assert ParticipantsOf([row], "s") == [row] + ParticipantsOf([], "s");
  }

  /**
   * As written, a number quota passes the check exactly when it is at least one,
   * whole or not, and is stored as sent: 1.5 is accepted.
   */
  lemma FractionalQuotaAccepted(req: CreateRequest, x: real)
    requires EnoughEmails(req) && FacilitatorListed(req) && req.votesPerPerson == JNum(x)
    ensures CreateRejection(req).None? <==> x >= 1.0
    ensures BoundQuota(req.votesPerPerson) == Some(Num(x))
    ensures x == 1.5 ==> CreateRejection(req).None? && !IsWhole(Num(x))
  {
  }

  /**
   * As written, a quota that is a word (such as "abc") passes the check, since
   * NaN is not below 1, and is stored as text that JavaScript reads as NaN.
   */
  lemma TextQuotaAccepted(req: CreateRequest, word: string)
    requires EnoughEmails(req) && FacilitatorListed(req) && req.votesPerPerson == JStr(word)
    requires word != [] && 'a' <= word[0] <= 'z' && !IsSpace(word[|word| - 1])
    ensures CreateRejection(req).None?
    ensures BoundQuota(req.votesPerPerson) == Some(Txt(word)) && ToNumber(word).None?
  {
    LetterIsNaN(word);
    assert QuotaGiven(req);
  }

  /** As written, `true` passes the check, but the session insert throws: a 500 and nothing stored. */
  lemma BooleanQuotaFails(t: Tables, req: CreateRequest, sid: string, now: int)
    requires EnoughEmails(req) && FacilitatorListed(req) && req.votesPerPerson == JBool(true)
    ensures CreateRejection(req).None?
    ensures CreateSessionStep(t, req, sid, now) == CreateOutcome(t, Fail(500, MsgCreateFailed))
  {
  }

  const MsgRepeatedEmail: string := "Emails must be distinct"

  /** `Number.isInteger(votesPerPerson)`: a JSON number with no fractional part. */
  predicate WholeQuotaSent(req: CreateRequest) {
    req.votesPerPerson.JNum? && req.votesPerPerson.x == req.votesPerPerson.x.Floor as real
  }

  /**
   * The route with the missing checks: a repeated email, or a quota that is not
   * a whole number, is refused with a 400 before anything is stored, like the
   * other validations.
   */
  function CheckedCreateSessionStep(t: Tables, req: CreateRequest, sid: string, now: int): (o: CreateOutcome)
  {
    if CreateRejection(req).None? && !NoRepeats(req.emails.value) then CreateOutcome(t, Fail(400, MsgRepeatedEmail))
    else if CreateRejection(req).None? && !WholeQuotaSent(req) then CreateOutcome(t, Fail(400, MsgBadQuota))
    else CreateSessionStep(t, req, sid, now)
  }

  /**
   * With the checks, a request either fails and stores nothing, or succeeds and
   * stores the session with a whole quota of at least one and exactly the
   * invitees, pending, one facilitator.
   */
  lemma CheckedCreateIsAtomic(t: Tables, req: CreateRequest, sid: string, now: int)
    requires ValidTables(t)
    ensures var o := CheckedCreateSessionStep(t, req, sid, now);
      && (o.reply.Fail? ==> o.tables == t)
      && (o.reply.Ok? ==>
            && sid in o.tables.sessions
            && IsWhole(o.tables.sessions[sid].votesPerPerson) && o.tables.sessions[sid].votesPerPerson.x >= 1.0
            && Map(InviteeOf, ParticipantsOf(o.tables.participants, sid)) == o.reply.body.invitees
            && (forall p :: p in ParticipantsOf(o.tables.participants, sid) ==> p.status == Pending)
            && Count(IsFacilitatorInvitee(), o.reply.body.invitees) == 1)
  {
    if CreateRejection(req).None? && NoRepeats(req.emails.value) && WholeQuotaSent(req) && sid !in t.sessions {
      CreateDistinctEmails(t, req, sid, now);
    }
  }

  // --------------------------------------------------------------- read session

  const MsgAccessDenied: string := "Access denied"

  /** `GET /api/session/:id` for the caller `who` named by the bearer token. */
  function SessionReply(t: Tables, who: Identity, id: string): (r: Reply<Snapshot>)
    ensures r == Fail(403, MsgAccessDenied) <==> id != who.sessionId
    ensures r == Fail(404, "Session not found") <==> id == who.sessionId && id !in t.sessions
    ensures r.Ok? ==> id == who.sessionId && r.body.session == Some(t.sessions[id])
    ensures r.Ok? ==> forall n :: n in r.body.notes <==> n in t.notes && n.sessionId == id
    ensures r.Ok? ==> forall g :: g in r.body.groups <==> g in t.groups && g.sessionId == id
    ensures r.Ok? ==> forall v :: v in r.body.votes <==> v in t.votes && v.sessionId == id
    ensures r.Ok? ==> forall a :: a in r.body.actions <==> a in t.actions && a.sessionId == id
    ensures r.Ok? ==> forall p :: p in r.body.participants <==> p in t.participants && p.sessionId == id
  {
    if id != who.sessionId then Fail(403, MsgAccessDenied)
    else if id !in t.sessions then Fail(404, "Session not found")
    else Ok(SnapshotOf(t, id))
  }

  method GetSession(db: Database, who: Identity, id: string) returns (r: Reply<Snapshot>)
    ensures r == SessionReply(db.Contents(), who, id)
  {
    if id != who.sessionId {
      return Fail(403, MsgAccessDenied);
    }
    var session := db.GetSession(id);
    if session.None? {
      return Fail(404, "Session not found");
    }
    var participants := db.ParticipantsBySession(id);
    var notes := db.NotesBySession(id);
    var groups := db.GroupsBySession(id);
    var votes := db.VotesBySession(id);
    var actions := db.ActionsBySession(id);
    r := Ok(Snapshot(session, notes, groups, votes, actions, participants));
  }

  // --------------------------------------------------------------------- export

  /** `voteCounts[k] || 0`. */
  function Lookup(counts: map<string, nat>, k: string): nat {
    if k in counts then counts[k] else 0
  }

  function OnTarget(k: string): Vote -> bool { (v: Vote) => v.targetId == k }

  /** The vote tally, one increment per vote in order. */
  function Tally(votes: seq<Vote>): map<string, nat>
    decreases |votes|
  {
    if votes == [] then map[]
    else
      var counts := Tally(votes[..|votes| - 1]);
      var k := votes[|votes| - 1].targetId;
      counts[k := Lookup(counts, k) + 1]
  }

  /** The tally of a target is the number of votes on it, and 0 when there are none. */
  lemma {:induction false} TallyCounts(votes: seq<Vote>, k: string)
    ensures Lookup(Tally(votes), k) == Count(OnTarget(k), votes)
    decreases |votes|
  {
    if votes != [] {
      var init := votes[..|votes| - 1];
      TallyCounts(init, k);
      assert init + [votes[|votes| - 1]] == votes;
      FilterSnoc(OnTarget(k), init, votes[|votes| - 1]);
    }
  }

  /** The `forEach` loop that fills `voteCounts`. */
  method TallyVotes(votes: seq<Vote>) returns (counts: map<string, nat>)
    ensures counts == Tally(votes)
    ensures forall k :: Lookup(counts, k) == Count(OnTarget(k), votes)
  {
    counts := map[];
    var i := 0;
    while i < |votes|
      invariant 0 <= i <= |votes|
      invariant counts == Tally(votes[..i])
    {
      assert votes[..i + 1][..i] == votes[..i];
      var k := votes[i].targetId;
      counts := counts[k := Lookup(counts, k) + 1];
      i := i + 1;
    }
    assert votes[..|votes|] == votes;
    forall k ensures Lookup(counts, k) == Count(OnTarget(k), votes) {
      TallyCounts(votes, k);
    }
  }

  /** Among a session's votes, those on `k` are the session's votes on `k` (`voteQueries.countByTarget`). */
  lemma SessionTally(votes: seq<Vote>, sid: string, k: string)
    ensures Lookup(Tally(VotesOf(votes, sid)), k) == CountByTarget(votes, sid, k)
  {
    TallyCounts(VotesOf(votes, sid), k);
    CountOfFilter(OnTarget(k), VoteInSession(sid), VoteOnTarget(sid, k), votes);
  }

  datatype ExportedParticipant = ExportedParticipant(email: string, role: string, joined: bool)
  datatype ExportedNote = ExportedNote(id: string, author: string, column: string, text: string, groupId: Option<string>)
  datatype ExportedGroup = ExportedGroup(id: string, title: string, column: string, noteIds: seq<string>, votes: nat)
  /** `createdAt` is the raw timestamp; the ISO formatting is not modelled. */
  datatype ExportedAction = ExportedAction(title: string, assignee: string, linkedTo: Option<string>, createdAt: int)
  datatype Export = Export(
    sessionId: string,
    facilitator: string,
    date: int,
    framework: string,
    participants: seq<ExportedParticipant>,
    notes: seq<ExportedNote>,
    groups: seq<ExportedGroup>,
    actionItems: seq<ExportedAction>)

  function ExportParticipant(p: Participant): ExportedParticipant {
    ExportedParticipant(p.email, p.role, p.status == Joined)
  }

  function ExportNote(n: Note): ExportedNote {
    ExportedNote(n.id, n.authorEmail, n.column, n.text, n.groupId)
  }

  /** A group with the ids of `notes` it holds and its tally. */
  function ExportGroup(notes: seq<Note>, counts: map<string, nat>, g: Group): ExportedGroup {
    ExportedGroup(g.id, g.title, g.column, Map(NoteId, NotesInGroup(notes, g.id)), Lookup(counts, g.id))
  }

  function ExportAction(a: ActionItem): ExportedAction {
    ExportedAction(a.title, a.assignee, a.linkedTo, a.createdAt)
  }

  /** The export document of the session `s`, over the session's rows and a vote tally. */
  function Flatten(s: Session, participants: seq<Participant>, notes: seq<Note>, groups: seq<Group>,
                   actions: seq<ActionItem>, counts: map<string, nat>): Export
  {
    Export(s.id, s.facilitatorEmail, s.createdAt, "Start/Stop/Continue",
           Map(ExportParticipant, participants),
           Map(ExportNote, notes),
           Map((g: Group) => ExportGroup(notes, counts, g), groups),
           Map(ExportAction, actions))
  }

  const MsgNotFacilitator: string := "Facilitator access required"
  const MsgExportFailed: string := "Failed to export session"

  /**
   * `GET /api/session/:id/export`: the facilitator check of the middleware, the
   * session check, then the flattening. A missing session makes `session.id`
   * throw, which answers 500.
   */
  function ExportReply(t: Tables, who: Identity, id: string): (r: Reply<Export>)
    ensures r == Fail(403, MsgNotFacilitator) <==> who.role != Facilitator
    ensures r == Fail(403, MsgAccessDenied) <==> who.role == Facilitator && id != who.sessionId
    ensures r == Fail(500, MsgExportFailed) <==> who.role == Facilitator && id == who.sessionId && id !in t.sessions
  {
    if who.role != Facilitator then Fail(403, MsgNotFacilitator)
    else if id != who.sessionId then Fail(403, MsgAccessDenied)
    else if id !in t.sessions then Fail(500, MsgExportFailed)
    else
      Ok(Flatten(t.sessions[id], ParticipantsOf(t.participants, id), NotesOf(t.notes, id),
                 GroupsOf(t.groups, id), ActionsOf(t.actions, id), Tally(VotesOf(t.votes, id))))
  }

  /**
   * A successful export describes the requested session: its id, facilitator
   * and creation time; its participants in order, each with email, role and
   * whether it joined; its notes in order, each with id, author, column, text
   * and group; its groups in order, each with title, column, exactly the ids of
   * the session's notes in it (in note order) and the number of the session's
   * votes on it; and its action items in order, each with title, assignee,
   * link and creation time.
   */
  lemma ExportContents(t: Tables, who: Identity, id: string)
    requires ExportReply(t, who, id).Ok?
    ensures var e := ExportReply(t, who, id).body;
      && id in t.sessions && who.role == Facilitator && id == who.sessionId
      && e.sessionId == t.sessions[id].id && e.facilitator == t.sessions[id].facilitatorEmail && e.date == t.sessions[id].createdAt
      && |e.participants| == |ParticipantsOf(t.participants, id)|
      && (forall i :: 0 <= i < |e.participants| ==>
            var p := ParticipantsOf(t.participants, id)[i];
            && e.participants[i].email == p.email && e.participants[i].role == p.role
            && (e.participants[i].joined <==> p.status == Joined))
      && |e.notes| == |NotesOf(t.notes, id)|
      && (forall i :: 0 <= i < |e.notes| ==>
            var n := NotesOf(t.notes, id)[i];
            e.notes[i] == ExportedNote(n.id, n.authorEmail, n.column, n.text, n.groupId))
      && |e.groups| == |GroupsOf(t.groups, id)|
      && (forall i :: 0 <= i < |e.groups| ==>
            var g := GroupsOf(t.groups, id)[i];
            && e.groups[i].id == g.id && e.groups[i].title == g.title && e.groups[i].column == g.column
            && e.groups[i].noteIds == Map(NoteId, NotesInGroup(NotesOf(t.notes, id), g.id))
            && e.groups[i].votes == CountByTarget(t.votes, id, g.id))
      && |e.actionItems| == |ActionsOf(t.actions, id)|
      && (forall i :: 0 <= i < |e.actionItems| ==>
            var a := ActionsOf(t.actions, id)[i];
            e.actionItems[i] == ExportedAction(a.title, a.assignee, a.linkedTo, a.createdAt))
  {
    var groups := GroupsOf(t.groups, id);
    forall i | 0 <= i < |groups| ensures Lookup(Tally(VotesOf(t.votes, id)), groups[i].id) == CountByTarget(t.votes, id, groups[i].id) {
      SessionTally(t.votes, id, groups[i].id);
    }
  }

  /** The route as the server runs it: the queries, the tally loop, then the projections. */
  method ExportSession(db: Database, who: Identity, id: string) returns (r: Reply<Export>)
    ensures r == ExportReply(db.Contents(), who, id)
  {
    if who.role != Facilitator {
      return Fail(403, MsgNotFacilitator);
    }
    if id != who.sessionId {
      return Fail(403, MsgAccessDenied);
    }
    var session := db.GetSession(id);
    var participants := db.ParticipantsBySession(id);
    var notes := db.NotesBySession(id);
    var groups := db.GroupsBySession(id);
    var votes := db.VotesBySession(id);
    var actions := db.ActionsBySession(id);
    var counts := TallyVotes(votes);
    if session.None? {
      return Fail(500, MsgExportFailed);
    }
    r := Ok(Flatten(session.value, participants, notes, groups, actions, counts));
  }
}
