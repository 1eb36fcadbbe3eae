/**
 * The real-time session engine: one handler per socket event. Each handler is a
 * method of `RetroEngine`, which runs prepared statements against the store and
 * appends what it broadcasts to an outbound log; each method is proved against
 * a pure step function over the store's contents, and the rules the handlers
 * enforce are lemmas about those step functions.
 *
 * Handlers other than `join` read the identity the socket stored when it
 * joined; here that identity is a parameter. Fresh ids and the clock are
 * parameters too.
 */
module Engine {
  import opened Wrappers
  import opened Seqs
  import opened Schema
  import opened Queries
  import opened Protocol
  import opened Store

  /** The store after a handler, and what it emitted, in order. */
  datatype Step = Step(tables: Tables, out: seq<Emission>)

  /** A refusal: the store as it is, one error to the caller. */
  function Refuse(t: Tables, message: string): Step {
    Step(t, [Emission(Caller, Error(message))])
  }

  /**
   * Every user's votes in a session were admitted by the quota check: before
   * the latest of them the count was not at the session's quota. Under a whole
   * quota that is a count of at most the quota (`WholeQuotaRespected`).
   */
  ghost predicate QuotaRespected(sessions: map<string, Session>, votes: seq<Vote>) {
    forall v :: v in votes && v.sessionId in sessions ==>
      !AtLeast(CountByUser(votes, v.sessionId, v.email) - 1, sessions[v.sessionId].votesPerPerson)
  }

  /** Everything a joining client is sent about its session. */
  function SnapshotOf(t: Tables, sid: string): (r: Snapshot)
    ensures r.session == SessionById(t.sessions, sid)
    ensures r.session.Some? <==> sid in t.sessions
    ensures forall n :: n in r.notes <==> n in t.notes && n.sessionId == sid
    ensures forall g :: g in r.groups <==> g in t.groups && g.sessionId == sid
    ensures forall v :: v in r.votes <==> v in t.votes && v.sessionId == sid
    ensures forall a :: a in r.actions <==> a in t.actions && a.sessionId == sid
    ensures forall p :: p in r.participants <==> p in t.participants && p.sessionId == sid
  {
    Snapshot(SessionById(t.sessions, sid), NotesOf(t.notes, sid), GroupsOf(t.groups, sid),
             VotesOf(t.votes, sid), ActionsOf(t.actions, sid), ParticipantsOf(t.participants, sid))
  }

  /** Whether `email` wrote the note with id `noteId`. */
  predicate IsAuthor(notes: seq<Note>, noteId: string, email: string) {
    NoteById(notes, noteId).Some? && NoteById(notes, noteId).value.authorEmail == email
  }

  // ------------------------------------------------------------ step functions

  /** `join` with a valid token: the caller is marked joined, the room gets the roster, the caller the snapshot. */
  function JoinStep(t: Tables, who: Identity, now: int): (r: Step)
    ensures r.tables == t.(participants := r.tables.participants)
    ensures |r.out| == 2 && r.out[1] == Emission(Caller, SessionState(SnapshotOf(r.tables, who.sessionId)))
  {
    var t1 := t.(participants := MarkJoined(t.participants, who.sessionId, who.email, now));
    Step(t1, [Emission(Room(who.sessionId), ParticipantsUpdated(ParticipantsOf(t1.participants, who.sessionId))),
              Emission(Caller, SessionState(SnapshotOf(t1, who.sessionId)))])
  }

  /** The row `note:add` inserts. */
  function NewNote(who: Identity, noteId: string, column: string, text: string, now: int): Note {
    Note(noteId, who.sessionId, who.email, column, text, None, now)
  }

  function NoteAddStep(t: Tables, who: Identity, noteId: string, column: string, text: string, now: int): (r: Step)
    ensures r.tables == t.(notes := r.tables.notes)
    ensures r.tables.notes != t.notes <==> CanInsertNote(t, NewNote(who, noteId, column, text, now))
  {
    var row := NewNote(who, noteId, column, text, now);
    if !CanInsertNote(t, row) then Refuse(t, "Failed to add note")
    else Step(t.(notes := t.notes + [row]), [Emission(Room(who.sessionId), NoteAdded(row))])
  }

  function NoteEditStep(t: Tables, who: Identity, noteId: string, text: string): (r: Step)
    ensures r.tables == t.(notes := r.tables.notes)
  {
    if !IsAuthor(t.notes, noteId, who.email) then Refuse(t, "Can only edit your own notes")
    else Step(t.(notes := SetNoteText(t.notes, noteId, text)), [Emission(Room(who.sessionId), NoteEdited(noteId, text))])
  }

  /** The one note of this session still in group `g`, if there is exactly one, leaves the group. */
  function Detach(t: Tables, sid: string, g: string): (r: Step)
    ensures r.tables == t.(notes := r.tables.notes)
  {
    var remaining := NotesInGroup(NotesOf(t.notes, sid), g);
    if |remaining| == 1 then
      Step(t.(notes := SetNoteGroup(t.notes, remaining[0].id, None)), [Emission(Room(sid), NoteMoved(remaining[0].id, None, Missing))])
    else Step(t, [])
  }

  /**
   * The clean-up after a note left group `g`: a group left with at most one
   * note is deleted, its one remaining note in this session (if any) detached
   * first. The count is over all notes; the remaining note is looked up among
   * this session's notes.
   */
  function Settle(t: Tables, sid: string, g: string): (r: Step)
    ensures r.tables == t.(notes := r.tables.notes, groups := r.tables.groups)
  {
    var count := CountInGroup(t.notes, g);
    if count > 1 then Step(t, [])
    else
      var d := if count == 1 then Detach(t, sid, g) else Step(t, []);
      Step(d.tables.(groups := DeleteGroup(t.groups, g)), d.out + [Emission(Room(sid), GroupDeleted(g))])
  }

  /** The clean-up runs only when the note's former group is truthy and the note left it. */
  function SettleIf(t: Tables, sid: string, left: Option<string>, leaves: bool): (r: Step)
    ensures r.tables == t.(notes := r.tables.notes, groups := r.tables.groups)
  {
    if Truthy(left) && leaves then Settle(t, sid, left.value) else Step(t, [])
  }

  function NoteDeleteStep(t: Tables, who: Identity, noteId: string): (r: Step)
    ensures r.tables == t.(notes := r.tables.notes, groups := r.tables.groups)
  {
    if !IsAuthor(t.notes, noteId, who.email) then Refuse(t, "Can only delete your own notes")
    else
      var left := NoteById(t.notes, noteId).value.groupId;
      var c := SettleIf(t.(notes := DeleteNote(t.notes, noteId)), who.sessionId, left, true);
      Step(c.tables, [Emission(Room(who.sessionId), NoteDeleted(noteId))] + c.out)
  }

  /** The outcome of a sequence of row writes: the store after them, and whether none failed. */
  datatype Write = Write(tables: Tables, ok: bool)

  /** The group id a note had, `undefined` (here `None`) when there is no such note. */
  function FormerGroup(notes: seq<Note>, noteId: string): Option<string> {
    var note := NoteById(notes, noteId);
    if note.Some? then note.value.groupId else None
  }

  /**
   * The writes of `note:move`. The group is written first, for any id. A
   * column field that is present, `null` included, is then compared with the
   * note's, which fails when there is no such note, and written when it
   * differs; NOT NULL refuses `null` and the column CHECK any other value that
   * is not a note column, after the group write has already happened.
   */
  function MoveNoteRow(t: Tables, noteId: string, groupId: Option<string>, column: Field): (w: Write)
    ensures w.tables == t.(notes := w.tables.notes)
  {
    var note := NoteById(t.notes, noteId);
    var t1 := t.(notes := SetNoteGroup(t.notes, noteId, groupId));
    if column.Missing? then Write(t1, true)
    else if note.None? || column.Null? then Write(t1, false)
    else if column.value == note.value.column then Write(t1, true)
    else if !IsNoteColumn(column.value) then Write(t1, false)
    else Write(t1.(notes := SetNoteColumn(t1.notes, noteId, column.value)), true)
  }

  function NoteMoveStep(t: Tables, who: Identity, noteId: string, groupId: Option<string>, column: Field): (r: Step)
    ensures r.tables == t.(notes := r.tables.notes, groups := r.tables.groups)
  {
    var w := MoveNoteRow(t, noteId, groupId, column);
    var left := FormerGroup(t.notes, noteId);
    if !w.ok then Refuse(w.tables, "Failed to move note")
    else
      var c := SettleIf(w.tables, who.sessionId, left, left != groupId);
      Step(c.tables, [Emission(Room(who.sessionId), NoteMoved(noteId, groupId, column))] + c.out)
  }

  /** `noteIds.forEach(updateGroup)`: the notes with the listed ids, one statement after another, join group `g`. */
  function AssignGroup(notes: seq<Note>, ids: seq<string>, g: string): (r: seq<Note>)
    ensures |r| == |notes|
    ensures forall i :: 0 <= i < |notes| ==> r[i].(groupId := notes[i].groupId) == notes[i]
    ensures forall i :: 0 <= i < |notes| ==> r[i].groupId == if notes[i].id in ids then Some(g) else notes[i].groupId
    decreases |ids|
  {
    if ids == [] then notes
    else
      var prefix := ids[..|ids| - 1];
      assert ids == prefix + [ids[|ids| - 1]];
      SetNoteGroup(AssignGroup(notes, prefix, g), ids[|ids| - 1], Some(g))
  }

  /** The row `group:create` inserts: an untitled group. */
  function NewGroup(who: Identity, groupId: string, column: string, now: int): Group {
    Group(groupId, who.sessionId, "", column, now)
  }

  function GroupCreateStep(t: Tables, who: Identity, groupId: string, column: string, noteIds: seq<string>, now: int): (r: Step)
    ensures r.tables == t.(notes := r.tables.notes, groups := r.tables.groups)
  {
    var row := NewGroup(who, groupId, column, now);
    if !CanInsertGroup(t, row) then Refuse(t, "Failed to create group")
    else Step(t.(groups := t.groups + [row], notes := AssignGroup(t.notes, noteIds, groupId)),
              [Emission(Room(who.sessionId), GroupCreated(row, noteIds))])
  }

  function GroupUpdateStep(t: Tables, who: Identity, groupId: string, title: string): (r: Step)
    ensures r.tables == t.(groups := r.tables.groups)
  {
    Step(t.(groups := SetGroupTitle(t.groups, groupId, title)), [Emission(Room(who.sessionId), GroupUpdated(groupId, title))])
  }

  function GroupMoveStep(t: Tables, who: Identity, groupId: string, column: string): (r: Step)
    ensures r.tables == t.(groups := r.tables.groups)
  {
    if !CanSetGroupColumn(t.groups, groupId, column) then Refuse(t, "Failed to move group")
    else Step(t.(groups := SetGroupColumn(t.groups, groupId, column)), [Emission(Room(who.sessionId), GroupMoved(groupId, column))])
  }

  /**
   * The message of the `vote:cast` catch block for the `code` of what was
   * thrown (`None` for an error without one): the duplicate message only for
   * the bare primary code, which the driver never reports for a constraint.
   */
  function CastFailureMessage(code: Option<string>): (m: string)
    ensures m == "Already voted for this item" <==> code == Some(ConstraintCode)
    ensures m != "Already voted for this item" ==> m == "Failed to cast vote"
  {
    if code == Some(ConstraintCode) then "Already voted for this item" else "Failed to cast vote"
  }

  /**
   * `vote:cast`. A missing session makes the quota lookup throw; the quota
   * refuses the vote when the caller's count is at `votes_per_person` as
   * JavaScript compares them; a refused insert throws the driver's code.
   */
  function VoteCastStep(t: Tables, who: Identity, targetId: string, targetType: string, now: int): (r: Step)
    ensures r.tables == t.(votes := r.tables.votes, nextVoteId := r.tables.nextVoteId)
  {
    var sid := who.sessionId;
    var err := VoteInsertError(t, sid, who.email, targetId, targetType);
    if sid !in t.sessions then Refuse(t, CastFailureMessage(None))
    else if AtLeast(CountByUser(t.votes, sid, who.email), t.sessions[sid].votesPerPerson) then Refuse(t, "Vote limit reached")
    else if err.Some? then Refuse(t, CastFailureMessage(err))
    else
      var votes := t.votes + [NewVote(t, sid, who.email, targetId, targetType, now)];
      Step(t.(votes := votes, nextVoteId := t.nextVoteId + 1), [Emission(Room(sid), VotesUpdated(VotesOf(votes, sid)))])
  }

  /** The catch block as its comment intends it: the duplicate message for a refused UNIQUE key. */
  function CheckedCastFailureMessage(code: Option<string>): (m: string)
    ensures m == "Already voted for this item" <==> code == Some("SQLITE_CONSTRAINT_UNIQUE")
  {
    if code == Some("SQLITE_CONSTRAINT_UNIQUE") then "Already voted for this item" else "Failed to cast vote"
  }

  /** `vote:cast` with the intended catch block; everything else as `VoteCastStep`. */
  function CheckedVoteCastStep(t: Tables, who: Identity, targetId: string, targetType: string, now: int): (r: Step)
    ensures r.tables == t.(votes := r.tables.votes, nextVoteId := r.tables.nextVoteId)
  {
    var sid := who.sessionId;
    var err := VoteInsertError(t, sid, who.email, targetId, targetType);
    if sid in t.sessions && !AtLeast(CountByUser(t.votes, sid, who.email), t.sessions[sid].votesPerPerson) && err.Some?
    then Refuse(t, CheckedCastFailureMessage(err))
    else VoteCastStep(t, who, targetId, targetType, now)
  }

  function VoteRemoveStep(t: Tables, who: Identity, targetId: string): (r: Step)
    ensures r.tables == t.(votes := r.tables.votes)
  {
    var votes := RemoveVote(t.votes, who.sessionId, who.email, targetId);
    Step(t.(votes := votes), [Emission(Room(who.sessionId), VotesUpdated(VotesOf(votes, who.sessionId)))])
  }

  function NewAction(who: Identity, actionId: string, title: string, assignee: string, linkedTo: Option<string>, now: int): ActionItem {
    ActionItem(actionId, who.sessionId, title, assignee, linkedTo, now)
  }

  function ActionCreateStep(t: Tables, who: Identity, actionId: string, title: string, assignee: string,
                            linkedTo: Option<string>, now: int): (r: Step)
    ensures r.tables == t.(actions := r.tables.actions)
  {
    var row := NewAction(who, actionId, title, assignee, linkedTo, now);
    if who.role != Facilitator then Refuse(t, "Only facilitator can create action items")
    else if !CanInsertAction(t, row) then Refuse(t, "Failed to create action item")
    else Step(t.(actions := t.actions + [row]), [Emission(Room(who.sessionId), ActionCreated(row))])
  }

  function PhaseChangeStep(t: Tables, who: Identity, phase: string, now: int): (r: Step)
    ensures r.tables == t.(sessions := r.tables.sessions)
    ensures r.tables.sessions.Keys == t.sessions.Keys
  {
    if who.role != Facilitator then Refuse(t, "Only facilitator can change phase")
    else Step(t.(sessions := SetPhase(t.sessions, who.sessionId, phase, now)), [Emission(Room(who.sessionId), PhaseChanged(phase))])
  }

  // -------------------------------------------------------------- the handlers

  class RetroEngine {
    const db: Database
    /** Verification of a magic-link token: its claims, or nothing for an invalid or expired token. */
    const verifyToken: string -> Option<Identity>
    /** Everything emitted so far, in order. */
    var log: seq<Emission>

    ghost predicate Valid()
      reads this, db
    {
      db.Valid() && QuotaRespected(db.sessions, db.votes)
    }

    constructor (db: Database, verifyToken: string -> Option<Identity>)
      requires db.Valid() && QuotaRespected(db.sessions, db.votes)
      ensures Valid() && this.db == db && this.verifyToken == verifyToken && log == []
    {
      this.db := db;
      this.verifyToken := verifyToken;
      log := [];
    }

    /** `join`. Returns the identity the socket keeps, or nothing when the token is invalid. */
    method Join(token: string, now: int) returns (who: Option<Identity>)
      requires Valid()
      modifies this, db
      ensures Valid()
      ensures who == verifyToken(token)
      ensures who.None? ==> db.Contents() == old(db.Contents()) && log == old(log) + [Emission(Caller, Error("Invalid token"))]
      ensures who.Some? ==> db.Contents() == JoinStep(old(db.Contents()), who.value, now).tables
                            && log == old(log) + JoinStep(old(db.Contents()), who.value, now).out
    {
      who := verifyToken(token);
      if who.None? {
        log := log + [Emission(Caller, Error("Invalid token"))];
        return;
      }
      var sid, email := who.value.sessionId, who.value.email;
      db.UpdateStatus(now, sid, email);
      var participants := db.ParticipantsBySession(sid);
      ghost var log0 := log;
      var roster := Emission(Room(sid), ParticipantsUpdated(participants));
      log := log + [roster];
      var session := db.GetSession(sid);
      var notes := db.NotesBySession(sid);
      var groups := db.GroupsBySession(sid);
      var votes := db.VotesBySession(sid);
      var actions := db.ActionsBySession(sid);
      var state := Emission(Caller, SessionState(Snapshot(session, notes, groups, votes, actions, participants)));
      log := log + [state];
      AppendAssoc(log0, [roster], [state]);
      assert [roster] + [state] == [roster, state];
    }

    /** `note:add`. */
    method NoteAdd(who: Identity, noteId: string, column: string, text: string, now: int)
      requires Valid()
      modifies this, db
      ensures Valid()
      ensures db.Contents() == NoteAddStep(old(db.Contents()), who, noteId, column, text, now).tables
      ensures log == old(log) + NoteAddStep(old(db.Contents()), who, noteId, column, text, now).out
    {
      var row := Note(noteId, who.sessionId, who.email, column, text, None, now);
      var ok := db.CreateNote(row);
      if !ok {
        log := log + [Emission(Caller, Error("Failed to add note"))];
        return;
      }
      log := log + [Emission(Room(who.sessionId), NoteAdded(row))];
    }

    /** `note:edit`: the author only. */
    method NoteEdit(who: Identity, noteId: string, text: string)
      requires Valid()
      modifies this, db
      ensures Valid()
      ensures db.Contents() == NoteEditStep(old(db.Contents()), who, noteId, text).tables
      ensures log == old(log) + NoteEditStep(old(db.Contents()), who, noteId, text).out
    {
      var note := db.GetNoteById(noteId);
      if note.None? || note.value.authorEmail != who.email {
        log := log + [Emission(Caller, Error("Can only edit your own notes"))];
        return;
      }
      db.UpdateText(text, noteId);
      log := log + [Emission(Room(who.sessionId), NoteEdited(noteId, text))];
    }

    /** Detaches the last note of this session left in group `g`. */
    method DetachRemaining(sid: string, g: string)
      requires db.Valid()
      modifies this, db
      ensures db.Valid()
      ensures db.Contents() == Detach(old(db.Contents()), sid, g).tables
      ensures log == old(log) + Detach(old(db.Contents()), sid, g).out
    {
      var sessionNotes := db.NotesBySession(sid);
      var remaining := NotesInGroup(sessionNotes, g);
      if |remaining| == 1 {
        db.UpdateGroup(None, remaining[0].id);
        log := log + [Emission(Room(sid), NoteMoved(remaining[0].id, None, Missing))];
      }
    }

    /** The clean-up both `note:delete` and `note:move` run on the group a note left. */
    method SettleGroup(sid: string, g: string)
      requires db.Valid()
      modifies this, db
      ensures db.Valid()
      ensures db.Contents() == Settle(old(db.Contents()), sid, g).tables
      ensures log == old(log) + Settle(old(db.Contents()), sid, g).out
    {
      ghost var t0 := db.Contents();
      ghost var log0 := log;
      var count := db.CountByGroup(g);
      if count <= 1 {
        if count == 1 {
          DetachRemaining(sid, g);
        }
        ghost var d := if count == 1 then Detach(t0, sid, g) else Step(t0, []);
        AppendAssoc(log0, d.out, [Emission(Room(sid), GroupDeleted(g))]);
        db.DeleteGroup(g);
        log := log + [Emission(Room(sid), GroupDeleted(g))];
      }
    }

    /** Broadcasts `announce`, then runs the clean-up when the note's former group is truthy and the note left it. */
    method AnnounceAndSettle(announce: Emission, sid: string, left: Option<string>, leaves: bool)
      requires Valid()
      modifies this, db
      ensures Valid()
      ensures db.Contents() == SettleIf(old(db.Contents()), sid, left, leaves).tables
      ensures log == old(log) + [announce] + SettleIf(old(db.Contents()), sid, left, leaves).out
    {
      log := log + [announce];
      if Truthy(left) && leaves {
        SettleGroup(sid, left.value);
      } else {
        assert log + [] == log;
      }
    }

    /** `note:delete`: the author only; then the clean-up of the note's group. */
    method NoteDelete(who: Identity, noteId: string)
      requires Valid()
      modifies this, db
      ensures Valid()
      ensures db.Contents() == NoteDeleteStep(old(db.Contents()), who, noteId).tables
      ensures log == old(log) + NoteDeleteStep(old(db.Contents()), who, noteId).out
    {
      ghost var t0 := db.Contents();
      var note := db.GetNoteById(noteId);
      if note.None? || note.value.authorEmail != who.email {
        log := log + [Emission(Caller, Error("Can only delete your own notes"))];
        return;
      }
      var oldGroup := note.value.groupId;
      db.DeleteNote(noteId);
      ghost var c := SettleIf(db.Contents(), who.sessionId, oldGroup, true);
      assert NoteDeleteStep(t0, who, noteId) == Step(c.tables, [Emission(Room(who.sessionId), NoteDeleted(noteId))] + c.out);
      ghost var log0 := log;
      AnnounceAndSettle(Emission(Room(who.sessionId), NoteDeleted(noteId)), who.sessionId, oldGroup, true);
      AppendAssoc(log0, [Emission(Room(who.sessionId), NoteDeleted(noteId))], c.out);
    }

    /** The row writes of `note:move`; nothing is emitted. */
    method WriteNoteMove(noteId: string, groupId: Option<string>, column: Field) returns (ok: bool)
      requires db.Valid()
      modifies db
      ensures db.Valid()
      ensures db.Contents() == MoveNoteRow(old(db.Contents()), noteId, groupId, column).tables
      ensures ok == MoveNoteRow(old(db.Contents()), noteId, groupId, column).ok
    {
      var note := db.GetNoteById(noteId);
      ghost var t0 := db.Contents();
      db.UpdateGroup(groupId, noteId);
      ok := true;
      if !column.Missing? {
        if note.None? {
          return false;
        }
        if column.Null? || column.value != note.value.column {
          SetNoteGroupKeepsIds(t0.notes, noteId, groupId, noteId);
          ok := db.UpdateNoteColumn(if column.Given? then Some(column.value) else None, noteId);
        }
      }
    }

    /** `note:move`: regroup, maybe change column, then clean up the group the note left. */
    method NoteMove(who: Identity, noteId: string, groupId: Option<string>, column: Field)
      requires Valid()
      modifies this, db
      ensures Valid()
      ensures db.Contents() == NoteMoveStep(old(db.Contents()), who, noteId, groupId, column).tables
      ensures log == old(log) + NoteMoveStep(old(db.Contents()), who, noteId, groupId, column).out
    {
      ghost var t0 := db.Contents();
      var note := db.GetNoteById(noteId);
      var oldGroup := if note.Some? then note.value.groupId else None;
      assert oldGroup == FormerGroup(t0.notes, noteId);
      var ok := WriteNoteMove(noteId, groupId, column);
      if !ok {
        log := log + [Emission(Caller, Error("Failed to move note"))];
        return;
      }
      ghost var c := SettleIf(db.Contents(), who.sessionId, oldGroup, oldGroup != groupId);
      assert NoteMoveStep(t0, who, noteId, groupId, column)
          == Step(c.tables, [Emission(Room(who.sessionId), NoteMoved(noteId, groupId, column))] + c.out);
      ghost var log0 := log;
      AnnounceAndSettle(Emission(Room(who.sessionId), NoteMoved(noteId, groupId, column)), who.sessionId, oldGroup, oldGroup != groupId);
      AppendAssoc(log0, [Emission(Room(who.sessionId), NoteMoved(noteId, groupId, column))], c.out);
    }

    /** `group:create`: insert an untitled group, then move each listed note into it. */
    method GroupCreate(who: Identity, groupId: string, column: string, noteIds: seq<string>, now: int)
      requires Valid()
      modifies this, db
      ensures Valid()
      ensures db.Contents() == GroupCreateStep(old(db.Contents()), who, groupId, column, noteIds, now).tables
      ensures log == old(log) + GroupCreateStep(old(db.Contents()), who, groupId, column, noteIds, now).out
    {
      var row := Group(groupId, who.sessionId, "", column, now);
      var ok := db.CreateGroup(row);
      if !ok {
        log := log + [Emission(Caller, Error("Failed to create group"))];
        return;
      }
      ghost var t1 := db.Contents();
      var i := 0;
      while i < |noteIds|
        invariant 0 <= i <= |noteIds|
        invariant db.Valid()
        invariant db.Contents() == t1.(notes := AssignGroup(t1.notes, noteIds[..i], groupId))
        invariant log == old(log)
      {
        assert noteIds[..i + 1][..i] == noteIds[..i];
        db.UpdateGroup(Some(groupId), noteIds[i]);
        i := i + 1;
      }
      assert noteIds[..i] == noteIds;
      log := log + [Emission(Room(who.sessionId), GroupCreated(row, noteIds))];
    }

    /** `group:update`: set a group's title. */
    method GroupUpdate(who: Identity, groupId: string, title: string)
      requires Valid()
      modifies this, db
      ensures Valid()
      ensures db.Contents() == GroupUpdateStep(old(db.Contents()), who, groupId, title).tables
      ensures log == old(log) + GroupUpdateStep(old(db.Contents()), who, groupId, title).out
    {
      db.UpdateTitle(title, groupId);
      log := log + [Emission(Room(who.sessionId), GroupUpdated(groupId, title))];
    }

    /** `group:move`: set a group's column. */
    method GroupMove(who: Identity, groupId: string, column: string)
      requires Valid()
      modifies this, db
      ensures Valid()
      ensures db.Contents() == GroupMoveStep(old(db.Contents()), who, groupId, column).tables
      ensures log == old(log) + GroupMoveStep(old(db.Contents()), who, groupId, column).out
    {
      var ok := db.UpdateGroupColumn(column, groupId);
      if !ok {
        log := log + [Emission(Caller, Error("Failed to move group"))];
        return;
      }
      log := log + [Emission(Room(who.sessionId), GroupMoved(groupId, column))];
    }

    /** `vote:cast`: admitted by the quota check, at most once per target. */
    method VoteCast(who: Identity, targetId: string, targetType: string, now: int)
      requires Valid()
      modifies this, db
      ensures Valid()
      ensures db.Contents() == VoteCastStep(old(db.Contents()), who, targetId, targetType, now).tables
      ensures log == old(log) + VoteCastStep(old(db.Contents()), who, targetId, targetType, now).out
    {
      var sid, email := who.sessionId, who.email;
      var session := db.GetSession(sid);
      var current := db.CountVotesByUser(sid, email);
      if session.None? {
        log := log + [Emission(Caller, Error(CastFailureMessage(None)))];
        return;
      }
      if AtLeast(current, session.value.votesPerPerson) {
        log := log + [Emission(Caller, Error("Vote limit reached"))];
        return;
      }
      ghost var before := db.Contents();
      var err := db.CastVote(sid, email, targetId, targetType, now);
      if err.Some? {
        log := log + [Emission(Caller, Error(CastFailureMessage(err)))];
        return;
      }
      CastKeepsQuota(before.sessions, before.votes, NewVote(before, sid, email, targetId, targetType, now));
      var votes := db.VotesBySession(sid);
      log := log + [Emission(Room(sid), VotesUpdated(votes))];
    }

    /** `vote:remove`: withdraw the caller's vote for a target. */
    method VoteRemove(who: Identity, targetId: string)
      requires Valid()
      modifies this, db
      ensures Valid()
      ensures db.Contents() == VoteRemoveStep(old(db.Contents()), who, targetId).tables
      ensures log == old(log) + VoteRemoveStep(old(db.Contents()), who, targetId).out
    {
      RemoveKeepsQuota(db.sessions, db.votes, who.sessionId, who.email, targetId);
      db.RemoveVote(who.sessionId, who.email, targetId);
      var votes := db.VotesBySession(who.sessionId);
      log := log + [Emission(Room(who.sessionId), VotesUpdated(votes))];
    }

    /** `action:create`: the facilitator only. */
    method ActionCreate(who: Identity, actionId: string, title: string, assignee: string, linkedTo: Option<string>, now: int)
      requires Valid()
      modifies this, db
      ensures Valid()
      ensures db.Contents() == ActionCreateStep(old(db.Contents()), who, actionId, title, assignee, linkedTo, now).tables
      ensures log == old(log) + ActionCreateStep(old(db.Contents()), who, actionId, title, assignee, linkedTo, now).out
    {
      if who.role != Facilitator {
        log := log + [Emission(Caller, Error("Only facilitator can create action items"))];
        return;
      }
      var row := ActionItem(actionId, who.sessionId, title, assignee, linkedTo, now);
      var ok := db.CreateAction(row);
      if !ok {
        log := log + [Emission(Caller, Error("Failed to create action item"))];
        return;
      }
      log := log + [Emission(Room(who.sessionId), ActionCreated(row))];
    }

    /** `phase:change`: the facilitator only; any phase value is stored. */
    method PhaseChange(who: Identity, phase: string, now: int)
      requires Valid()
      modifies this, db
      ensures Valid()
      ensures db.Contents() == PhaseChangeStep(old(db.Contents()), who, phase, now).tables
      ensures log == old(log) + PhaseChangeStep(old(db.Contents()), who, phase, now).out
    {
      if who.role != Facilitator {
        log := log + [Emission(Caller, Error("Only facilitator can change phase"))];
        return;
      }
      PhaseKeepsQuota(db.sessions, db.votes, who.sessionId, phase, now);
      db.UpdatePhase(phase, now, who.sessionId);
      log := log + [Emission(Room(who.sessionId), PhaseChanged(phase))];
    }
  }

  // --------------------------------------------------------- the vote quota

  /** A vote cast while its caller is below the quota keeps every user's latest vote admitted by the quota check. */
  lemma CastKeepsQuota(sessions: map<string, Session>, votes: seq<Vote>, row: Vote)
    requires QuotaRespected(sessions, votes)
    requires row.sessionId in sessions
    requires !AtLeast(CountByUser(votes, row.sessionId, row.email), sessions[row.sessionId].votesPerPerson)
    ensures QuotaRespected(sessions, votes + [row])
  {
    var after := votes + [row];
    forall v | v in after && v.sessionId in sessions
      ensures !AtLeast(CountByUser(after, v.sessionId, v.email) - 1, sessions[v.sessionId].votesPerPerson)
    {
      FilterSnoc(VoteByUser(v.sessionId, v.email), votes, row);
    }
  }

  /** Removing votes keeps every user's latest vote admitted by the quota check. */
  lemma RemoveKeepsQuota(sessions: map<string, Session>, votes: seq<Vote>, sid: string, email: string, target: string)
    requires QuotaRespected(sessions, votes)
    ensures QuotaRespected(sessions, RemoveVote(votes, sid, email, target))
  {
    var after := RemoveVote(votes, sid, email, target);
    forall v | v in after && v.sessionId in sessions
      ensures !AtLeast(CountByUser(after, v.sessionId, v.email) - 1, sessions[v.sessionId].votesPerPerson)
    {
      assert v in votes;
      CountOfFilterLe(VoteByUser(v.sessionId, v.email), NotVoteOf(sid, email, target), votes);
    }
  }

  /** A phase change leaves every quota as it was. */
  lemma PhaseKeepsQuota(sessions: map<string, Session>, votes: seq<Vote>, sid: string, phase: string, now: int)
    requires QuotaRespected(sessions, votes)
    ensures QuotaRespected(SetPhase(sessions, sid, phase, now), votes)
  {
    var after := SetPhase(sessions, sid, phase, now);
    forall k | k in after ensures after[k].votesPerPerson == sessions[k].votesPerPerson {
      if k == sid {
        assert after[k].(currentPhase := sessions[k].currentPhase, updatedAt := sessions[k].updatedAt) == sessions[k];
      }
    }
  }

  /** Under whole quotas the invariant is the bound it is meant to be: no user holds more votes than the quota. */
  lemma WholeQuotaRespected(sessions: map<string, Session>, votes: seq<Vote>, v: Vote)
    requires QuotaRespected(sessions, votes)
    requires v in votes && v.sessionId in sessions && IsWhole(sessions[v.sessionId].votesPerPerson)
    ensures CountByUser(votes, v.sessionId, v.email) as real <= sessions[v.sessionId].votesPerPerson.x
  {
    WholeQuotaCaps(CountByUser(votes, v.sessionId, v.email), sessions[v.sessionId].votesPerPerson);
  }
}
