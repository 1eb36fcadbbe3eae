/**
 * The session store: six mutable relations, each prepared statement a method.
 * INSERT and UPDATE statements report through `ok` whether a constraint refused
 * them (the driver would throw); a refused statement changes nothing.
 *
 * The store as written defines no `noteQueries.getById`, `updateText`,
 * `countByGroup` or `updateColumn`; the handlers that call them would throw a
 * TypeError and end in their generic `catch` branch. The four are modelled here
 * with their evident meaning, marked "not defined by the store as written".
 */
module Store {
  import opened Wrappers
  import opened Seqs
  import opened Schema
  import opened Queries

  class Database {
    var sessions: map<string, Session>
    var participants: seq<Participant>
    var notes: seq<Note>
    var groups: seq<Group>
    var votes: seq<Vote>
    var actions: seq<ActionItem>
    var nextParticipantId: nat
    var nextVoteId: nat

    /** The whole store as one value. */
    function Contents(): Tables
      reads this
    {
      Tables(sessions, participants, notes, groups, votes, actions, nextParticipantId, nextVoteId)
    }

    /** The schema's constraints hold. */
    ghost predicate Valid()
      reads this
    {
      ValidTables(Contents())
    }

    /** A freshly initialised schema: every table empty. */
    constructor ()
      ensures Valid() && Contents() == EmptyTables
    {
      sessions, participants, notes, groups, votes, actions := map[], [], [], [], [], [];
      nextParticipantId, nextVoteId := 1, 1;
    }

    // ---------------------------------------------------------- sessionQueries

    /** `sessionQueries.create`: a new session in phase 'waiting'; refused if the id is taken. */
    method CreateSession(id: string, facilitatorEmail: string, votesPerPerson: Stored, createdAt: int, updatedAt: int)
      returns (ok: bool)
      requires Valid()
      modifies this
      ensures Valid()
      ensures ok <==> id !in old(sessions)
      ensures Contents() == if ok then old(Contents()).(sessions := old(sessions)[id :=
                Session(id, facilitatorEmail, votesPerPerson, InitialPhase, createdAt, updatedAt)])
              else old(Contents())
    {
      ok := id !in sessions;
      if ok {
        var row := Session(id, facilitatorEmail, votesPerPerson, InitialPhase, createdAt, updatedAt);
        InsertSessionKeepsValid(Contents(), row);
        sessions := sessions[id := row];
      }
    }

    /** `sessionQueries.getById`. */
    method GetSession(id: string) returns (r: Option<Session>)
      ensures r == SessionById(sessions, id)
    {
      r := SessionById(sessions, id);
    }

    /** `sessionQueries.updatePhase`. */
    method UpdatePhase(phase: string, now: int, id: string)
      requires Valid()
      modifies this
      ensures Valid()
      ensures Contents() == old(Contents()).(sessions := SetPhase(old(sessions), id, phase, now))
    {
      SetPhaseKeepsValid(Contents(), id, phase, now);
      sessions := SetPhase(sessions, id, phase, now);
    }

    /** `sessionQueries.delete`, cascading to every row of that session. */
    method DeleteSession(id: string)
      requires Valid()
      modifies this
      ensures Valid()
      ensures Contents() == Queries.DeleteSession(old(Contents()), id)
    {
      var t := Queries.DeleteSession(Contents(), id);
      DeleteSessionKeepsValid(Contents(), id);
      sessions, participants, notes, groups, votes, actions := t.sessions, t.participants, t.notes, t.groups, t.votes, t.actions;
      assert Contents() == t;
    }

    // ------------------------------------------------------ participantQueries

    /** `participantQueries.create`: a pending participant; refused on a bad role, unknown session or taken (session, email). */
    method CreateParticipant(sid: string, email: string, role: string) returns (ok: bool)
      requires Valid()
      modifies this
      ensures Valid()
      ensures ok <==> CanInsertParticipant(old(Contents()), sid, email, role)
      ensures Contents() == if ok then old(Contents()).(
                participants := old(participants) + [NewParticipant(old(Contents()), sid, email, role)],
                nextParticipantId := old(nextParticipantId) + 1)
              else old(Contents())
    {
      ok := CanInsertParticipant(Contents(), sid, email, role);
      if ok {
        InsertParticipantKeepsValid(Contents(), sid, email, role);
        participants := participants + [NewParticipant(Contents(), sid, email, role)];
        nextParticipantId := nextParticipantId + 1;
      }
    }

    /** `participantQueries.getBySession`. */
    method ParticipantsBySession(sid: string) returns (r: seq<Participant>)
      ensures r == ParticipantsOf(participants, sid)
    {
      r := ParticipantsOf(participants, sid);
    }

    /** `participantQueries.updateStatus`. */
    method UpdateStatus(now: int, sid: string, email: string)
      requires Valid()
      modifies this
      ensures Valid()
      ensures Contents() == old(Contents()).(participants := MarkJoined(old(participants), sid, email, now))
    {
      MarkJoinedKeepsValid(Contents(), sid, email, now);
      participants := MarkJoined(participants, sid, email, now);
    }

    /** `participantQueries.getByEmail`. */
    method GetParticipantByEmail(sid: string, email: string) returns (r: Option<Participant>)
      ensures r == ParticipantByEmail(participants, sid, email)
    {
      r := ParticipantByEmail(participants, sid, email);
    }

    // ------------------------------------------------------------ noteQueries

    /** `noteQueries.create`; refused on a bad column, unknown session or taken id. */
    method CreateNote(row: Note) returns (ok: bool)
      requires Valid()
      modifies this
      ensures Valid()
      ensures ok <==> CanInsertNote(old(Contents()), row)
      ensures Contents() == if ok then old(Contents()).(notes := old(notes) + [row]) else old(Contents())
    {
      ok := CanInsertNote(Contents(), row);
      if ok {
        InsertNoteKeepsValid(Contents(), row);
        notes := notes + [row];
      }
    }

    /** `noteQueries.getBySession`. */
    method NotesBySession(sid: string) returns (r: seq<Note>)
      ensures r == NotesOf(notes, sid)
    {
      r := NotesOf(notes, sid);
    }

    /** `noteQueries.getById` (not defined by the store as written). */
    method GetNoteById(id: string) returns (r: Option<Note>)
      ensures r == NoteById(notes, id)
    {
      r := NoteById(notes, id);
    }

    /** `noteQueries.countByGroup` (not defined by the store as written). */
    method CountByGroup(g: string) returns (count: nat)
      ensures count == CountInGroup(notes, g)
    {
      count := CountInGroup(notes, g);
    }

    /** `noteQueries.updateGroup`. */
    method UpdateGroup(g: Option<string>, id: string)
      requires Valid()
      modifies this
      ensures Valid()
      ensures Contents() == old(Contents()).(notes := SetNoteGroup(old(notes), id, g))
    {
      SetNoteGroupKeepsValid(Contents(), id, g);
      notes := SetNoteGroup(notes, id, g);
    }

    /** `noteQueries.updateText` (not defined by the store as written). */
    method UpdateText(text: string, id: string)
      requires Valid()
      modifies this
      ensures Valid()
      ensures Contents() == old(Contents()).(notes := SetNoteText(old(notes), id, text))
    {
      SetNoteTextKeepsValid(Contents(), id, text);
      notes := SetNoteText(notes, id, text);
    }

    /**
     * `noteQueries.updateColumn` (not defined by the store as written), with
     * `None` bound as `null`; refused by NOT NULL or the column CHECK.
     */
    method UpdateNoteColumn(column: Option<string>, id: string) returns (ok: bool)
      requires Valid()
      modifies this
      ensures Valid()
      ensures ok <==> CanSetNoteColumn(old(notes), id, column)
      ensures Contents() == if ok && column.Some? then old(Contents()).(notes := SetNoteColumn(old(notes), id, column.value)) else old(Contents())
    {
      ok := CanSetNoteColumn(notes, id, column);
      if ok && column.Some? {
        SetNoteColumnKeepsValid(Contents(), id, column.value);
        notes := SetNoteColumn(notes, id, column.value);
      }
    }

    /** `noteQueries.delete`. */
    method DeleteNote(id: string)
      requires Valid()
      modifies this
      ensures Valid()
      ensures Contents() == old(Contents()).(notes := Queries.DeleteNote(old(notes), id))
    {
      DeleteNoteKeepsValid(Contents(), id);
      notes := Queries.DeleteNote(notes, id);
    }

    // ----------------------------------------------------------- groupQueries

    /** `groupQueries.create`; refused on a bad column, unknown session or taken id. */
    method CreateGroup(row: Group) returns (ok: bool)
      requires Valid()
      modifies this
      ensures Valid()
      ensures ok <==> CanInsertGroup(old(Contents()), row)
      ensures Contents() == if ok then old(Contents()).(groups := old(groups) + [row]) else old(Contents())
    {
      ok := CanInsertGroup(Contents(), row);
      if ok {
        InsertGroupKeepsValid(Contents(), row);
        groups := groups + [row];
      }
    }

    /** `groupQueries.getBySession`. */
    method GroupsBySession(sid: string) returns (r: seq<Group>)
      ensures r == GroupsOf(groups, sid)
    {
      r := GroupsOf(groups, sid);
    }

    /** `groupQueries.updateTitle`. */
    method UpdateTitle(title: string, id: string)
      requires Valid()
      modifies this
      ensures Valid()
      ensures Contents() == old(Contents()).(groups := SetGroupTitle(old(groups), id, title))
    {
      SetGroupTitleKeepsValid(Contents(), id, title);
      groups := SetGroupTitle(groups, id, title);
    }

    /** `groupQueries.updateColumn`; refused by the column CHECK. */
    method UpdateGroupColumn(column: string, id: string) returns (ok: bool)
      requires Valid()
      modifies this
      ensures Valid()
      ensures ok <==> CanSetGroupColumn(old(groups), id, column)
      ensures Contents() == if ok then old(Contents()).(groups := SetGroupColumn(old(groups), id, column)) else old(Contents())
    {
      ok := CanSetGroupColumn(groups, id, column);
      if ok {
        SetGroupColumnKeepsValid(Contents(), id, column);
        groups := SetGroupColumn(groups, id, column);
      }
    }

    /** `groupQueries.delete`. */
    method DeleteGroup(id: string)
      requires Valid()
      modifies this
      ensures Valid()
      ensures Contents() == old(Contents()).(groups := Queries.DeleteGroup(old(groups), id))
    {
      DeleteGroupKeepsValid(Contents(), id);
      groups := Queries.DeleteGroup(groups, id);
    }

    // ------------------------------------------------------------ voteQueries

    /**
     * `voteQueries.cast`; refused on a bad target type, an existing (session,
     * email, target) vote or an unknown session, with the code the driver throws.
     */
    method CastVote(sid: string, email: string, target: string, targetType: string, now: int) returns (err: Option<string>)
      requires Valid()
      modifies this
      ensures Valid()
      ensures err == VoteInsertError(old(Contents()), sid, email, target, targetType)
      ensures Contents() == if err.None? then old(Contents()).(
                votes := old(votes) + [NewVote(old(Contents()), sid, email, target, targetType, now)],
                nextVoteId := old(nextVoteId) + 1)
              else old(Contents())
    {
      err := VoteInsertError(Contents(), sid, email, target, targetType);
      if err.None? {
        InsertVoteKeepsValid(Contents(), sid, email, target, targetType, now);
        votes := votes + [NewVote(Contents(), sid, email, target, targetType, now)];
        nextVoteId := nextVoteId + 1;
      }
    }

    /** `voteQueries.remove`. */
    method RemoveVote(sid: string, email: string, target: string)
      requires Valid()
      modifies this
      ensures Valid()
      ensures Contents() == old(Contents()).(votes := Queries.RemoveVote(old(votes), sid, email, target))
    {
      RemoveVoteKeepsValid(Contents(), sid, email, target);
      votes := Queries.RemoveVote(votes, sid, email, target);
    }

    /** `voteQueries.getBySession`. */
    method VotesBySession(sid: string) returns (r: seq<Vote>)
      ensures r == VotesOf(votes, sid)
    {
      r := VotesOf(votes, sid);
    }

    /** `voteQueries.countByUser`. */
    method CountVotesByUser(sid: string, email: string) returns (count: nat)
      ensures count == CountByUser(votes, sid, email)
    {
      count := CountByUser(votes, sid, email);
    }

    /** `voteQueries.countByTarget`. */
    method CountVotesByTarget(sid: string, target: string) returns (count: nat)
      ensures count == CountByTarget(votes, sid, target)
    {
      count := CountByTarget(votes, sid, target);
    }

    // ---------------------------------------------------------- actionQueries

    /** `actionQueries.create`; refused on an unknown session or taken id. */
    method CreateAction(row: ActionItem) returns (ok: bool)
      requires Valid()
      modifies this
      ensures Valid()
      ensures ok <==> CanInsertAction(old(Contents()), row)
      ensures Contents() == if ok then old(Contents()).(actions := old(actions) + [row]) else old(Contents())
    {
      ok := CanInsertAction(Contents(), row);
      if ok {
        InsertActionKeepsValid(Contents(), row);
        actions := actions + [row];
      }
    }

    /** `actionQueries.getBySession`. */
    method ActionsBySession(sid: string) returns (r: seq<ActionItem>)
      ensures r == ActionsOf(actions, sid)
    {
      r := ActionsOf(actions, sid);
    }

    /** `actionQueries.delete`. */
    method DeleteAction(id: string)
      requires Valid()
      modifies this
      ensures Valid()
      ensures Contents() == old(Contents()).(actions := Queries.DeleteAction(old(actions), id))
    {
      DeleteActionKeepsValid(Contents(), id);
      actions := Queries.DeleteAction(actions, id);
    }
  }
}
