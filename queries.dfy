/**
 * What each prepared statement of the session store reads or writes, as functions
 * over the rows of one table, together with the conditions under which an INSERT
 * or UPDATE is refused by a constraint. `Store.Database` runs these; the lemmas
 * below show that the statements the store accepts keep `ValidTables`.
 */
module Queries {
  import opened Wrappers
  import opened Seqs
  import opened Schema

  // ---------------------------------------------------------------- sessions

  /** `sessionQueries.getById`. */
  function SessionById(sessions: map<string, Session>, id: string): (r: Option<Session>)
    ensures r.Some? <==> id in sessions
    ensures r.Some? ==> r.value == sessions[id]
  {
    if id in sessions then Some(sessions[id]) else None
  }

  /** `sessionQueries.updatePhase`: stores `phase` verbatim, whatever its value. */
  function SetPhase(sessions: map<string, Session>, id: string, phase: string, now: int): (r: map<string, Session>)
    ensures r.Keys == sessions.Keys
    ensures id in r ==> r[id].currentPhase == phase && r[id].updatedAt == now
    ensures id in r ==> r[id].(currentPhase := sessions[id].currentPhase, updatedAt := sessions[id].updatedAt) == sessions[id]
    ensures forall k :: k in sessions && k != id ==> r[k] == sessions[k]
  {
    if id in sessions then sessions[id := sessions[id].(currentPhase := phase, updatedAt := now)] else sessions
  }

  /** `sessionQueries.delete`, with the ON DELETE CASCADE of every table that refers to sessions. */
  function DeleteSession(t: Tables, id: string): (r: Tables)
    ensures r.sessions.Keys == t.sessions.Keys - {id}
    ensures forall k :: k in r.sessions ==> r.sessions[k] == t.sessions[k]
    ensures forall p :: p in r.participants <==> p in t.participants && p.sessionId != id
    ensures forall n :: n in r.notes <==> n in t.notes && n.sessionId != id
    ensures forall g :: g in r.groups <==> g in t.groups && g.sessionId != id
    ensures forall v :: v in r.votes <==> v in t.votes && v.sessionId != id
    ensures forall a :: a in r.actions <==> a in t.actions && a.sessionId != id
    ensures r.nextParticipantId == t.nextParticipantId && r.nextVoteId == t.nextVoteId
  {
    Tables(
      t.sessions - {id},
      Filter((p: Participant) => p.sessionId != id, t.participants),
      Filter((n: Note) => n.sessionId != id, t.notes),
      Filter((g: Group) => g.sessionId != id, t.groups),
      Filter((v: Vote) => v.sessionId != id, t.votes),
      Filter((a: ActionItem) => a.sessionId != id, t.actions),
      t.nextParticipantId,
      t.nextVoteId)
  }

  // ------------------------------------------------------------ participants

  /** `participantQueries.getBySession` (rows in insertion order). */
  function ParticipantsOf(ps: seq<Participant>, sid: string): (r: seq<Participant>)
    ensures forall p :: p in r <==> p in ps && p.sessionId == sid
  {
    Filter(ParticipantInSession(sid), ps)
  }

  /** `participantQueries.getByEmail`. */
  function ParticipantByEmail(ps: seq<Participant>, sid: string, email: string): (r: Option<Participant>)
    ensures r.Some? ==> r.value in ps && r.value.sessionId == sid && r.value.email == email
    ensures r.None? ==> forall p :: p in ps ==> !(p.sessionId == sid && p.email == email)
  {
    if ps == [] then None
    else if ps[0].sessionId == sid && ps[0].email == email then Some(ps[0])
    else ParticipantByEmail(ps[1..], sid, email)
  }

  /** `participantQueries.updateStatus`: the row of (sid, email), and only it, becomes joined at `now`. */
  function MarkJoined(ps: seq<Participant>, sid: string, email: string, now: int): (r: seq<Participant>)
    ensures |r| == |ps|
    ensures forall i :: 0 <= i < |ps| ==> r[i].(status := ps[i].status, joinedAt := ps[i].joinedAt) == ps[i]
    ensures forall i :: 0 <= i < |ps| && ps[i].sessionId == sid && ps[i].email == email ==>
              r[i].status == Joined && r[i].joinedAt == Some(now)
    ensures forall i :: 0 <= i < |ps| && !(ps[i].sessionId == sid && ps[i].email == email) ==> r[i] == ps[i]
  {
    seq(|ps|, i requires 0 <= i < |ps| =>
      if ps[i].sessionId == sid && ps[i].email == email then ps[i].(status := Joined, joinedAt := Some(now)) else ps[i])
  }

  /** When `participantQueries.create` is refused: bad role, unknown session, or (session, email) taken. */
  predicate CanInsertParticipant(t: Tables, sid: string, email: string, role: string) {
    IsRole(role) && sid in t.sessions && ParticipantByEmail(t.participants, sid, email).None?
  }

  /** The row `participantQueries.create` inserts: pending, never joined. */
  function NewParticipant(t: Tables, sid: string, email: string, role: string): Participant {
    Participant(t.nextParticipantId, sid, email, role, Pending, None)
  }

  // ------------------------------------------------------------------- notes

  /** `noteQueries.getById` (not defined by the store as written; see `Store.Database.GetNoteById`). */
  function NoteById(notes: seq<Note>, id: string): (r: Option<Note>)
    ensures r.Some? ==> r.value in notes && r.value.id == id
    ensures r.None? ==> forall n :: n in notes ==> n.id != id
  {
    if notes == [] then None
    else if notes[0].id == id then Some(notes[0])
    else NoteById(notes[1..], id)
  }

  // Row predicates the WHERE clauses use; named so that callers and lemmas share them.
  function ParticipantInSession(sid: string): Participant -> bool { (p: Participant) => p.sessionId == sid }
  function GroupInSession(sid: string): Group -> bool { (g: Group) => g.sessionId == sid }
  function VoteInSession(sid: string): Vote -> bool { (v: Vote) => v.sessionId == sid }
  function ActionInSession(sid: string): ActionItem -> bool { (a: ActionItem) => a.sessionId == sid }
  function NoteInSession(sid: string): Note -> bool { (n: Note) => n.sessionId == sid }
  function NoteInGroup(g: string): Note -> bool { (n: Note) => n.groupId == Some(g) }
  function VoteByUser(sid: string, email: string): Vote -> bool { (v: Vote) => v.sessionId == sid && v.email == email }
  function VoteOnTarget(sid: string, target: string): Vote -> bool { (v: Vote) => v.sessionId == sid && v.targetId == target }
  function NotVoteOf(sid: string, email: string, target: string): Vote -> bool { (v: Vote) => !IsVoteOf(v, sid, email, target) }

  /** `noteQueries.getBySession`. */
  function NotesOf(notes: seq<Note>, sid: string): (r: seq<Note>)
    ensures forall n :: n in r <==> n in notes && n.sessionId == sid
  {
    Filter(NoteInSession(sid), notes)
  }

  /** The notes whose `group_id` is `g`, in order. */
  function NotesInGroup(notes: seq<Note>, g: string): (r: seq<Note>)
    ensures forall n :: n in r <==> n in notes && n.groupId == Some(g)
  {
    Filter(NoteInGroup(g), notes)
  }

  /** `noteQueries.countByGroup` (not defined by the store as written). */
  function CountInGroup(notes: seq<Note>, g: string): (r: nat)
    ensures r == |NotesInGroup(notes, g)|
    ensures r == 0 <==> forall n :: n in notes ==> n.groupId != Some(g)
  {
    var members := NotesInGroup(notes, g);
    assert members != [] ==> members[0] in members;
    |members|
  }

  /** `noteQueries.updateGroup`: only `group_id` of the note with id `id` changes. */
  function SetNoteGroup(notes: seq<Note>, id: string, g: Option<string>): (r: seq<Note>)
    ensures |r| == |notes|
    ensures forall i :: 0 <= i < |notes| ==> r[i].(groupId := notes[i].groupId) == notes[i]
    ensures forall i :: 0 <= i < |notes| ==> r[i].groupId == if notes[i].id == id then g else notes[i].groupId
  {
    seq(|notes|, i requires 0 <= i < |notes| => if notes[i].id == id then notes[i].(groupId := g) else notes[i])
  }

  // SetNoteText, SetNoteColumn, SetGroupTitle and SetGroupColumn share one shape
  // on purpose: each stands for its own prepared `UPDATE ... SET <column> = ?
  // WHERE id = ?`, and each contract names the one field that statement writes.

  /** `noteQueries.updateText` (not defined by the store as written): only `text` of that note changes. */
  function SetNoteText(notes: seq<Note>, id: string, text: string): (r: seq<Note>)
    ensures |r| == |notes|
    ensures forall i :: 0 <= i < |notes| ==> r[i].(text := notes[i].text) == notes[i]
    ensures forall i :: 0 <= i < |notes| ==> r[i].text == if notes[i].id == id then text else notes[i].text
  {
    seq(|notes|, i requires 0 <= i < |notes| => if notes[i].id == id then notes[i].(text := text) else notes[i])
  }

  /** `noteQueries.updateColumn` (not defined by the store as written): only `column` of that note changes. */
  function SetNoteColumn(notes: seq<Note>, id: string, column: string): (r: seq<Note>)
    ensures |r| == |notes|
    ensures forall i :: 0 <= i < |notes| ==> r[i].(column := notes[i].column) == notes[i]
    ensures forall i :: 0 <= i < |notes| ==> r[i].column == if notes[i].id == id then column else notes[i].column
  {
    seq(|notes|, i requires 0 <= i < |notes| => if notes[i].id == id then notes[i].(column := column) else notes[i])
  }

  /** `noteQueries.delete`. */
  function DeleteNote(notes: seq<Note>, id: string): (r: seq<Note>)
    ensures forall n :: n in r <==> n in notes && n.id != id
  {
    Filter((n: Note) => n.id != id, notes)
  }

  /** When `noteQueries.create` is refused: bad column, unknown session, or id taken. */
  predicate CanInsertNote(t: Tables, row: Note) {
    IsNoteColumn(row.column) && row.sessionId in t.sessions && NoteById(t.notes, row.id).None?
  }

  /**
   * `noteQueries.updateColumn` with `column` bound (`None` for `null`) is
   * refused only when some row matches: by NOT NULL for `null`, by the CHECK
   * for a value that is not a note column.
   */
  predicate CanSetNoteColumn(notes: seq<Note>, id: string, column: Option<string>) {
    (column.Some? && IsNoteColumn(column.value)) || NoteById(notes, id).None?
  }

  // ------------------------------------------------------------------ groups

  function GroupById(groups: seq<Group>, id: string): (r: Option<Group>)
    ensures r.Some? ==> r.value in groups && r.value.id == id
    ensures r.None? ==> forall g :: g in groups ==> g.id != id
  {
    if groups == [] then None
    else if groups[0].id == id then Some(groups[0])
    else GroupById(groups[1..], id)
  }

  /** `groupQueries.getBySession`. */
  function GroupsOf(groups: seq<Group>, sid: string): (r: seq<Group>)
    ensures forall g :: g in r <==> g in groups && g.sessionId == sid
  {
    Filter(GroupInSession(sid), groups)
  }

  /** `groupQueries.updateTitle`: only `title` of that group changes. */
  function SetGroupTitle(groups: seq<Group>, id: string, title: string): (r: seq<Group>)
    ensures |r| == |groups|
    ensures forall i :: 0 <= i < |groups| ==> r[i].(title := groups[i].title) == groups[i]
    ensures forall i :: 0 <= i < |groups| ==> r[i].title == if groups[i].id == id then title else groups[i].title
  {
    seq(|groups|, i requires 0 <= i < |groups| => if groups[i].id == id then groups[i].(title := title) else groups[i])
  }

  /** `groupQueries.updateColumn`: only `column` of that group changes. */
  function SetGroupColumn(groups: seq<Group>, id: string, column: string): (r: seq<Group>)
    ensures |r| == |groups|
    ensures forall i :: 0 <= i < |groups| ==> r[i].(column := groups[i].column) == groups[i]
    ensures forall i :: 0 <= i < |groups| ==> r[i].column == if groups[i].id == id then column else groups[i].column
  {
    seq(|groups|, i requires 0 <= i < |groups| => if groups[i].id == id then groups[i].(column := column) else groups[i])
  }

  /** `groupQueries.delete`: removes the group with id `id` and no other. */
  function DeleteGroup(groups: seq<Group>, id: string): (r: seq<Group>)
    ensures forall g :: g in r <==> g in groups && g.id != id
  {
    Filter((g: Group) => g.id != id, groups)
  }

  /** When `groupQueries.create` is refused: bad column, unknown session, or id taken. */
  predicate CanInsertGroup(t: Tables, row: Group) {
    IsGroupColumn(row.column) && row.sessionId in t.sessions && GroupById(t.groups, row.id).None?
  }

  /** `groupQueries.updateColumn` is refused by the CHECK only when some row matches and the value is not a group column. */
  predicate CanSetGroupColumn(groups: seq<Group>, id: string, column: string) {
    IsGroupColumn(column) || GroupById(groups, id).None?
  }

  // ------------------------------------------------------------------- votes

  /** `voteQueries.getBySession`. */
  function VotesOf(votes: seq<Vote>, sid: string): (r: seq<Vote>)
    ensures forall v :: v in r <==> v in votes && v.sessionId == sid
  {
    Filter(VoteInSession(sid), votes)
  }

  predicate IsVoteOf(v: Vote, sid: string, email: string, target: string) {
    v.sessionId == sid && v.email == email && v.targetId == target
  }

  /** Whether (sid, email, target) already holds a vote. */
  function HasVote(votes: seq<Vote>, sid: string, email: string, target: string): (r: bool)
    ensures r <==> exists v :: v in votes && IsVoteOf(v, sid, email, target)
  {
    if votes == [] then false
    else IsVoteOf(votes[0], sid, email, target) || HasVote(votes[1..], sid, email, target)
  }

  /** `voteQueries.remove`: deletes exactly the rows matching session, email and target. */
  function RemoveVote(votes: seq<Vote>, sid: string, email: string, target: string): (r: seq<Vote>)
    ensures forall v :: v in r <==> v in votes && !IsVoteOf(v, sid, email, target)
  {
    Filter(NotVoteOf(sid, email, target), votes)
  }

  /** `voteQueries.countByUser`. */
  function CountByUser(votes: seq<Vote>, sid: string, email: string): nat {
    Count(VoteByUser(sid, email), votes)
  }

  /** `voteQueries.countByTarget`. */
  function CountByTarget(votes: seq<Vote>, sid: string, target: string): nat {
    Count(VoteOnTarget(sid, target), votes)
  }

  /** When `voteQueries.cast` is refused: bad target type, unknown session, or UNIQUE(session, email, target). */
  predicate CanInsertVote(t: Tables, sid: string, email: string, target: string, targetType: string) {
    IsTargetType(targetType) && sid in t.sessions && !HasVote(t.votes, sid, email, target)
  }

  /** SQLite's primary result code for a constraint violation. */
  const ConstraintCode: string := "SQLITE_CONSTRAINT"

  /**
   * The `code` of the error better-sqlite3 throws when `voteQueries.cast` is
   * refused, `None` when the row goes in. The driver reports SQLite's EXTENDED
   * result code, which names the constraint: the CHECK on `target_type`, the
   * UNIQUE key on (session, email, target), or the FOREIGN KEY to `sessions`.
   */
  function VoteInsertError(t: Tables, sid: string, email: string, target: string, targetType: string): (r: Option<string>)
    ensures r.None? <==> CanInsertVote(t, sid, email, target, targetType)
    ensures r.Some? ==> ConstraintCode < r.value
    ensures IsTargetType(targetType) && sid in t.sessions && HasVote(t.votes, sid, email, target) ==>
              r == Some("SQLITE_CONSTRAINT_UNIQUE")
  {
    if !IsTargetType(targetType) then Some("SQLITE_CONSTRAINT_CHECK")
    else if HasVote(t.votes, sid, email, target) then Some("SQLITE_CONSTRAINT_UNIQUE")
    else if sid !in t.sessions then Some("SQLITE_CONSTRAINT_FOREIGNKEY")
    else None
  }

  /** The row `voteQueries.cast` inserts. */
  function NewVote(t: Tables, sid: string, email: string, target: string, targetType: string, now: int): Vote {
    Vote(t.nextVoteId, sid, email, target, targetType, now)
  }

  // ----------------------------------------------------------------- actions

  function ActionById(actions: seq<ActionItem>, id: string): (r: Option<ActionItem>)
    ensures r.Some? ==> r.value in actions && r.value.id == id
    ensures r.None? ==> forall a :: a in actions ==> a.id != id
  {
    if actions == [] then None
    else if actions[0].id == id then Some(actions[0])
    else ActionById(actions[1..], id)
  }

  /** `actionQueries.getBySession`. */
  function ActionsOf(actions: seq<ActionItem>, sid: string): (r: seq<ActionItem>)
    ensures forall a :: a in r <==> a in actions && a.sessionId == sid
  {
    Filter(ActionInSession(sid), actions)
  }

  /** `actionQueries.delete`. */
  function DeleteAction(actions: seq<ActionItem>, id: string): (r: seq<ActionItem>)
    ensures forall a :: a in r <==> a in actions && a.id != id
  {
    Filter((a: ActionItem) => a.id != id, actions)
  }

  /** When `actionQueries.create` is refused: unknown session or id taken. */
  predicate CanInsertAction(t: Tables, row: ActionItem) {
    row.sessionId in t.sessions && ActionById(t.actions, row.id).None?
  }

  // --------------------------------------- statements the store accepts keep it valid

  lemma InsertSessionKeepsValid(t: Tables, row: Session)
    requires ValidTables(t) && row.id !in t.sessions
    ensures ValidTables(t.(sessions := t.sessions[row.id := row]))
  {
  }

  lemma SetPhaseKeepsValid(t: Tables, id: string, phase: string, now: int)
    requires ValidTables(t)
    ensures ValidTables(t.(sessions := SetPhase(t.sessions, id, phase, now)))
  {
  }

  lemma DeleteSessionKeepsValid(t: Tables, id: string)
    requires ValidTables(t)
    ensures ValidTables(DeleteSession(t, id))
  {
    FilterKeepsDistinct((p: Participant) => p.sessionId != id, ParticipantRowId, t.participants);
    FilterKeepsDistinct((p: Participant) => p.sessionId != id, ParticipantKey, t.participants);
    FilterKeepsDistinct((n: Note) => n.sessionId != id, NoteId, t.notes);
    FilterKeepsDistinct((g: Group) => g.sessionId != id, GroupId, t.groups);
    FilterKeepsDistinct((v: Vote) => v.sessionId != id, VoteRowId, t.votes);
    FilterKeepsDistinct((v: Vote) => v.sessionId != id, VoteKey, t.votes);
    FilterKeepsDistinct((a: ActionItem) => a.sessionId != id, ActionId, t.actions);
  }

  lemma InsertParticipantKeepsValid(t: Tables, sid: string, email: string, role: string)
    requires ValidTables(t) && CanInsertParticipant(t, sid, email, role)
    ensures ValidTables(t.(participants := t.participants + [NewParticipant(t, sid, email, role)],
                           nextParticipantId := t.nextParticipantId + 1))
  {
    var row := NewParticipant(t, sid, email, role);
    AppendKeepsDistinct(ParticipantRowId, t.participants, row);
    AppendKeepsDistinct(ParticipantKey, t.participants, row);
  }

  lemma MarkJoinedKeepsValid(t: Tables, sid: string, email: string, now: int)
    requires ValidTables(t)
    ensures ValidTables(t.(participants := MarkJoined(t.participants, sid, email, now)))
  {
    var r := MarkJoined(t.participants, sid, email, now);
    forall p | p in r ensures IsRole(p.role) && IsStatus(p.status) && p.sessionId in t.sessions && p.id < t.nextParticipantId {
      var i :| 0 <= i < |r| && r[i] == p;
      assert t.participants[i] in t.participants;
    }
  }

  lemma InsertNoteKeepsValid(t: Tables, row: Note)
    requires ValidTables(t) && CanInsertNote(t, row)
    ensures ValidTables(t.(notes := t.notes + [row]))
  {
    AppendKeepsDistinct(NoteId, t.notes, row);
  }

  lemma SetNoteGroupKeepsValid(t: Tables, id: string, g: Option<string>)
    requires ValidTables(t)
    ensures ValidTables(t.(notes := SetNoteGroup(t.notes, id, g)))
  {
    var r := SetNoteGroup(t.notes, id, g);
    forall n | n in r ensures IsNoteColumn(n.column) && n.sessionId in t.sessions {
      var i :| 0 <= i < |r| && r[i] == n;
      assert t.notes[i] in t.notes;
    }
  }

  lemma SetNoteTextKeepsValid(t: Tables, id: string, text: string)
    requires ValidTables(t)
    ensures ValidTables(t.(notes := SetNoteText(t.notes, id, text)))
  {
    var r := SetNoteText(t.notes, id, text);
    forall n | n in r ensures IsNoteColumn(n.column) && n.sessionId in t.sessions {
      var i :| 0 <= i < |r| && r[i] == n;
      assert t.notes[i] in t.notes;
    }
  }

  lemma SetNoteColumnKeepsValid(t: Tables, id: string, column: string)
    requires ValidTables(t) && CanSetNoteColumn(t.notes, id, Some(column))
    ensures ValidTables(t.(notes := SetNoteColumn(t.notes, id, column)))
  {
    var r := SetNoteColumn(t.notes, id, column);
    forall n | n in r ensures IsNoteColumn(n.column) && n.sessionId in t.sessions {
      var i :| 0 <= i < |r| && r[i] == n;
      assert t.notes[i] in t.notes;
      if t.notes[i].id == id {
        assert NoteById(t.notes, id).Some?;
      }
    }
  }

  lemma DeleteNoteKeepsValid(t: Tables, id: string)
    requires ValidTables(t)
    ensures ValidTables(t.(notes := DeleteNote(t.notes, id)))
  {
    FilterKeepsDistinct((n: Note) => n.id != id, NoteId, t.notes);
  }

  lemma InsertGroupKeepsValid(t: Tables, row: Group)
    requires ValidTables(t) && CanInsertGroup(t, row)
    ensures ValidTables(t.(groups := t.groups + [row]))
  {
    AppendKeepsDistinct(GroupId, t.groups, row);
  }

  lemma SetGroupTitleKeepsValid(t: Tables, id: string, title: string)
    requires ValidTables(t)
    ensures ValidTables(t.(groups := SetGroupTitle(t.groups, id, title)))
  {
    var r := SetGroupTitle(t.groups, id, title);
    forall g | g in r ensures IsGroupColumn(g.column) && g.sessionId in t.sessions {
      var i :| 0 <= i < |r| && r[i] == g;
      assert t.groups[i] in t.groups;
    }
  }

  lemma SetGroupColumnKeepsValid(t: Tables, id: string, column: string)
    requires ValidTables(t) && CanSetGroupColumn(t.groups, id, column)
    ensures ValidTables(t.(groups := SetGroupColumn(t.groups, id, column)))
  {
    var r := SetGroupColumn(t.groups, id, column);
    forall g | g in r ensures IsGroupColumn(g.column) && g.sessionId in t.sessions {
      var i :| 0 <= i < |r| && r[i] == g;
      assert t.groups[i] in t.groups;
      if t.groups[i].id == id {
        assert GroupById(t.groups, id).Some?;
      }
    }
  }

  lemma DeleteGroupKeepsValid(t: Tables, id: string)
    requires ValidTables(t)
    ensures ValidTables(t.(groups := DeleteGroup(t.groups, id)))
  {
    FilterKeepsDistinct((g: Group) => g.id != id, GroupId, t.groups);
  }

  lemma InsertVoteKeepsValid(t: Tables, sid: string, email: string, target: string, targetType: string, now: int)
    requires ValidTables(t) && CanInsertVote(t, sid, email, target, targetType)
    ensures ValidTables(t.(votes := t.votes + [NewVote(t, sid, email, target, targetType, now)],
                           nextVoteId := t.nextVoteId + 1))
  {
    var row := NewVote(t, sid, email, target, targetType, now);
    AppendKeepsDistinct(VoteRowId, t.votes, row);
    forall y | y in t.votes ensures VoteKey(y) != VoteKey(row) {
      assert !IsVoteOf(y, sid, email, target);
    }
    AppendKeepsDistinct(VoteKey, t.votes, row);
  }

  lemma RemoveVoteKeepsValid(t: Tables, sid: string, email: string, target: string)
    requires ValidTables(t)
    ensures ValidTables(t.(votes := RemoveVote(t.votes, sid, email, target)))
  {
    var p := NotVoteOf(sid, email, target);
    FilterKeepsDistinct(p, VoteRowId, t.votes);
    FilterKeepsDistinct(p, VoteKey, t.votes);
  }

  lemma InsertActionKeepsValid(t: Tables, row: ActionItem)
    requires ValidTables(t) && CanInsertAction(t, row)
    ensures ValidTables(t.(actions := t.actions + [row]))
  {
    AppendKeepsDistinct(ActionId, t.actions, row);
  }

  lemma DeleteActionKeepsValid(t: Tables, id: string)
    requires ValidTables(t)
    ensures ValidTables(t.(actions := DeleteAction(t.actions, id)))
  {
    FilterKeepsDistinct((a: ActionItem) => a.id != id, ActionId, t.actions);
  }

  // ------------------------------------------------------ facts the handlers rely on

  /** A session's members of a group are among all members of that group. */
  lemma SessionMembersLe(notes: seq<Note>, sid: string, g: string)
    ensures |NotesInGroup(NotesOf(notes, sid), g)| <= CountInGroup(notes, g)
  {
    CountOfFilterLe(NoteInGroup(g), NoteInSession(sid), notes);
  }

  /** Joining again only refreshes `joined_at`: the second update overrides the first. */
  lemma MarkJoinedAgain(ps: seq<Participant>, sid: string, email: string, first: int, again: int)
    ensures MarkJoined(MarkJoined(ps, sid, email, first), sid, email, again) == MarkJoined(ps, sid, email, again)
  {
    var once := MarkJoined(ps, sid, email, first);
    var twice := MarkJoined(once, sid, email, again);
    var direct := MarkJoined(ps, sid, email, again);
    forall i | 0 <= i < |ps| ensures twice[i] == direct[i] {
      assert once[i].sessionId == ps[i].sessionId && once[i].email == ps[i].email;
    }
  }

  /** Removing a vote that is not there changes nothing. */
  lemma RemoveAbsentVote(votes: seq<Vote>, sid: string, email: string, target: string)
    requires !HasVote(votes, sid, email, target)
    ensures RemoveVote(votes, sid, email, target) == votes
  {
    FilterKeepsAll(NotVoteOf(sid, email, target), votes);
  }

  /** Regrouping a note neither adds nor removes a note id. */
  lemma SetNoteGroupKeepsIds(notes: seq<Note>, x: string, g: Option<string>, id: string)
    ensures NoteById(SetNoteGroup(notes, x, g), id).Some? == NoteById(notes, id).Some?
  {
    var r := SetNoteGroup(notes, x, g);
    if NoteById(notes, id).Some? {
      var i :| 0 <= i < |notes| && notes[i] == NoteById(notes, id).value;
      assert r[i] in r;
    }
    if NoteById(r, id).Some? {
      var j :| 0 <= j < |r| && r[j] == NoteById(r, id).value;
      assert notes[j] in notes;
    }
  }
}
