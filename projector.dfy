/**
 * The client's copy of a session (client/src/store/retroStore.js): reducers
 * that fold server events into it and the queries the pages ask of it.
 *
 * Every reducer is a function from state to state. The lemmas at the end show
 * that, started from a snapshot, the copy keeps agreeing with the server's
 * rows under the events that have a reducer, and that the page queries then
 * give the counts the server would.
 */
module Projector {
  import opened Wrappers
  import opened Seqs
  import opened Schema
  import opened Queries
  import opened Protocol
  import opened Engine

  /** The store's session fields; `user` holds the claims of the caller's token. */
  datatype ClientState = ClientState(
    user: Option<Identity>,
    session: Option<Session>,
    participants: seq<Participant>,
    currentPhase: string,
    notes: seq<Note>,
    groups: seq<Group>,
    votes: seq<Vote>,
    actions: seq<ActionItem>)

  const InitialClient: ClientState := ClientState(None, None, [], InitialPhase, [], [], [], [])

  // ----------------------------------------------------------------- reducers

  /** `setSessionState`: every list replaced, the phase read from the session row. */
  function SetSessionState(s: ClientState, snapshot: Snapshot): (r: ClientState)
    requires snapshot.session.Some?
    ensures r.user == s.user && r.session == snapshot.session
    ensures r.currentPhase == snapshot.session.value.currentPhase
    ensures r.notes == snapshot.notes && r.groups == snapshot.groups && r.votes == snapshot.votes
    ensures r.actions == snapshot.actions && r.participants == snapshot.participants
  {
    ClientState(s.user, snapshot.session, snapshot.participants, snapshot.session.value.currentPhase,
                snapshot.notes, snapshot.groups, snapshot.votes, snapshot.actions)
  }

  function UpdateParticipants(s: ClientState, participants: seq<Participant>): ClientState {
    s.(participants := participants)
  }

  /** `addNote`: appended at the end, the others untouched. */
  function AddNote(s: ClientState, note: Note): (r: ClientState)
    ensures r == s.(notes := r.notes)
    ensures |r.notes| == |s.notes| + 1 && r.notes[..|s.notes|] == s.notes && r.notes[|s.notes|] == note
  {
    s.(notes := s.notes + [note])
  }

  function WithGroup(noteId: string, groupId: Option<string>): Note -> Note {
    (n: Note) => if n.id == noteId then n.(groupId := groupId) else n
  }

  /** `moveNote`: only `group_id` of the matching note changes; a column in the event is ignored. */
  function MoveNote(s: ClientState, noteId: string, groupId: Option<string>): (r: ClientState)
    ensures r == s.(notes := r.notes) && |r.notes| == |s.notes|
    ensures forall i :: 0 <= i < |s.notes| ==>
              r.notes[i].(groupId := s.notes[i].groupId) == s.notes[i] &&
              r.notes[i].groupId == if s.notes[i].id == noteId then groupId else s.notes[i].groupId
  {
    s.(notes := Map(WithGroup(noteId, groupId), s.notes))
  }

  function JoinGroup(noteIds: seq<string>, groupId: string): Note -> Note {
    (n: Note) => if n.id in noteIds then n.(groupId := Some(groupId)) else n
  }

  /** `addGroup`: the group appended, and exactly the listed notes put into it. */
  function AddGroup(s: ClientState, group: Group, noteIds: seq<string>): (r: ClientState)
    ensures r == s.(groups := r.groups, notes := r.notes) && r.groups == s.groups + [group]
    ensures |r.notes| == |s.notes|
    ensures forall i :: 0 <= i < |s.notes| ==>
              r.notes[i].(groupId := s.notes[i].groupId) == s.notes[i] &&
              r.notes[i].groupId == if s.notes[i].id in noteIds then Some(group.id) else s.notes[i].groupId
  {
    s.(groups := s.groups + [group], notes := Map(JoinGroup(noteIds, group.id), s.notes))
  }

  function Retitle(groupId: string, title: string): Group -> Group {
    (g: Group) => if g.id == groupId then g.(title := title) else g
  }

  /** `updateGroup`: only the title of the matching group changes. */
  function UpdateGroup(s: ClientState, groupId: string, title: string): (r: ClientState)
    ensures r == s.(groups := r.groups) && |r.groups| == |s.groups|
    ensures forall i :: 0 <= i < |s.groups| ==>
              r.groups[i].(title := s.groups[i].title) == s.groups[i] &&
              r.groups[i].title == if s.groups[i].id == groupId then title else s.groups[i].title
  {
    s.(groups := Map(Retitle(groupId, title), s.groups))
  }

  function Recolumn(groupId: string, column: string): Group -> Group {
    (g: Group) => if g.id == groupId then g.(column := column) else g
  }

  /** `moveGroup`: only the column of the matching group changes. */
  function MoveGroup(s: ClientState, groupId: string, column: string): (r: ClientState)
    ensures r == s.(groups := r.groups) && |r.groups| == |s.groups|
    ensures forall i :: 0 <= i < |s.groups| ==>
              r.groups[i].(column := s.groups[i].column) == s.groups[i] &&
              r.groups[i].column == if s.groups[i].id == groupId then column else s.groups[i].column
  {
    s.(groups := Map(Recolumn(groupId, column), s.groups))
  }

  function UpdateVotes(s: ClientState, votes: seq<Vote>): ClientState {
    s.(votes := votes)
  }

  /** `addAction`: appended at the end, the others untouched. */
  function AddAction(s: ClientState, action: ActionItem): (r: ClientState)
    ensures r == s.(actions := r.actions)
    ensures |r.actions| == |s.actions| + 1 && r.actions[..|s.actions|] == s.actions && r.actions[|s.actions|] == action
  {
    s.(actions := s.actions + [action])
  }

  function SetPhase(s: ClientState, phase: string): ClientState {
    s.(currentPhase := phase)
  }

  // ------------------------------------------------------------------ helpers

  function VoteFor(targetId: string): Vote -> bool { (v: Vote) => v.targetId == targetId }
  function VoteFrom(email: string): Vote -> bool { (v: Vote) => v.email == email }
  function VoteFromFor(email: string, targetId: string): Vote -> bool {
    (v: Vote) => v.targetId == targetId && v.email == email
  }

  /** `getVoteCount`: the votes on a target. */
  function VoteCount(s: ClientState, targetId: string): nat {
    Count(VoteFor(targetId), s.votes)
  }

  /** `getUserVoteCount`: the caller's votes, 0 before the caller is known. */
  function UserVoteCount(s: ClientState): (r: nat)
    ensures s.user.None? ==> r == 0
    ensures s.user.Some? ==> r == Count(VoteFrom(s.user.value.email), s.votes)
  {
    if s.user.None? then 0 else Count(VoteFrom(s.user.value.email), s.votes)
  }

  /** `hasUserVoted`: some vote is on the target and from the caller. */
  function HasUserVoted(s: ClientState, targetId: string): (r: bool)
    ensures r <==> s.user.Some? && exists v :: v in s.votes && v.targetId == targetId && v.email == s.user.value.email
  {
    if s.user.None? then false
    else
      var mine := Filter(VoteFromFor(s.user.value.email, targetId), s.votes);
      assert |mine| > 0 ==> mine[0] in mine;
      |mine| > 0
  }

  /** `session?.votes_per_person || 0`: the stored quota, 0 before a session is loaded or when it is falsy. */
  function Quota(s: ClientState): (q: Stored)
    ensures s.session.Some? && StoredTruthy(s.session.value.votesPerPerson) ==> q == s.session.value.votesPerPerson
    ensures !(s.session.Some? && StoredTruthy(s.session.value.votesPerPerson)) ==> q == Num(0.0)
  {
    if s.session.Some? && StoredTruthy(s.session.value.votesPerPerson) then s.session.value.votesPerPerson else Num(0.0)
  }

  predicate IsFacilitator(s: ClientState) {
    s.user.Some? && s.user.value.role == Facilitator
  }

  /** `getNotesInGroup`. */
  function NotesInGroupOf(s: ClientState, groupId: string): (r: seq<Note>)
    ensures forall n :: n in r <==> n in s.notes && n.groupId == Some(groupId)
  {
    NotesInGroup(s.notes, groupId)
  }

  function Ungrouped(column: string): Note -> bool { (n: Note) => n.column == column && !Truthy(n.groupId) }

  /** `getUngroupedNotes`: the notes of a column in no group, in order. */
  function UngroupedNotes(s: ClientState, column: string): (r: seq<Note>)
    ensures forall n :: n in r <==> n in s.notes && n.column == column && !Truthy(n.groupId)
  {
    Filter(Ungrouped(column), s.notes)
  }

  // ------------------------------------------------ agreement with the server

  /** The client's lists are the server's rows of its session. */
  ghost predicate Mirrors(s: ClientState, t: Tables, sid: string) {
    && s.notes == NotesOf(t.notes, sid)
    && s.groups == GroupsOf(t.groups, sid)
    && s.votes == VotesOf(t.votes, sid)
    && s.actions == ActionsOf(t.actions, sid)
  }

  /** The snapshot a join sends makes the client agree with the server. */
  lemma SnapshotMirrors(s: ClientState, t: Tables, sid: string)
    requires sid in t.sessions
    ensures SetSessionState(s, SnapshotOf(t, sid)).currentPhase == t.sessions[sid].currentPhase
    ensures Mirrors(SetSessionState(s, SnapshotOf(t, sid)), t, sid)
  {
  }

  /** The client's move applies the same update to a note as `noteQueries.updateGroup`. */
  lemma MoveNoteIsUpdateGroup(notes: seq<Note>, noteId: string, groupId: Option<string>)
    ensures Map(WithGroup(noteId, groupId), notes) == SetNoteGroup(notes, noteId, groupId)
  {
  }

  /** The client's one-pass `addGroup` gives the notes the server's `group:create` loop gives. */
  lemma AddGroupIsAssignGroup(notes: seq<Note>, noteIds: seq<string>, groupId: string)
    ensures Map(JoinGroup(noteIds, groupId), notes) == AssignGroup(notes, noteIds, groupId)
  {
    var a := Map(JoinGroup(noteIds, groupId), notes);
    var b := AssignGroup(notes, noteIds, groupId);
    forall i | 0 <= i < |notes| ensures a[i] == b[i] {
      assert b[i].(groupId := notes[i].groupId) == notes[i];
    }
  }

  lemma NoteAddedKeepsMirror(s: ClientState, t: Tables, sid: string, row: Note)
    requires Mirrors(s, t, sid) && row.sessionId == sid
    ensures Mirrors(AddNote(s, row), t.(notes := t.notes + [row]), sid)
  {
    FilterSnoc(NoteInSession(sid), t.notes, row);
  }

  /** Only a `note:moved` without a column keeps the copy in step: `moveNote` ignores the column. */
  lemma NoteMovedKeepsMirror(s: ClientState, t: Tables, sid: string, noteId: string, groupId: Option<string>)
    requires Mirrors(s, t, sid)
    ensures Mirrors(MoveNote(s, noteId, groupId), t.(notes := SetNoteGroup(t.notes, noteId, groupId)), sid)
  {
    MoveNoteIsUpdateGroup(t.notes, noteId, groupId);
    FilterMapCommute(NoteInSession(sid), WithGroup(noteId, groupId), t.notes);
  }

  lemma GroupCreatedKeepsMirror(s: ClientState, t: Tables, sid: string, row: Group, noteIds: seq<string>)
    requires Mirrors(s, t, sid) && row.sessionId == sid
    ensures Mirrors(AddGroup(s, row, noteIds),
                    t.(groups := t.groups + [row], notes := AssignGroup(t.notes, noteIds, row.id)), sid)
  {
    FilterSnoc(GroupInSession(sid), t.groups, row);
    AddGroupIsAssignGroup(t.notes, noteIds, row.id);
    FilterMapCommute(NoteInSession(sid), JoinGroup(noteIds, row.id), t.notes);
  }

  lemma GroupUpdatedKeepsMirror(s: ClientState, t: Tables, sid: string, groupId: string, title: string)
    requires Mirrors(s, t, sid)
    ensures Mirrors(UpdateGroup(s, groupId, title), t.(groups := SetGroupTitle(t.groups, groupId, title)), sid)
  {
    assert Map(Retitle(groupId, title), t.groups) == SetGroupTitle(t.groups, groupId, title);
    FilterMapCommute(GroupInSession(sid), Retitle(groupId, title), t.groups);
  }

  lemma GroupMovedKeepsMirror(s: ClientState, t: Tables, sid: string, groupId: string, column: string)
    requires Mirrors(s, t, sid)
    ensures Mirrors(MoveGroup(s, groupId, column), t.(groups := SetGroupColumn(t.groups, groupId, column)), sid)
  {
    assert Map(Recolumn(groupId, column), t.groups) == SetGroupColumn(t.groups, groupId, column);
    FilterMapCommute(GroupInSession(sid), Recolumn(groupId, column), t.groups);
  }

  lemma ActionCreatedKeepsMirror(s: ClientState, t: Tables, sid: string, row: ActionItem)
    requires Mirrors(s, t, sid) && row.sessionId == sid
    ensures Mirrors(AddAction(s, row), t.(actions := t.actions + [row]), sid)
  {
    FilterSnoc(ActionInSession(sid), t.actions, row);
  }

  /** `participants:updated` carries the session's roster, which `updateParticipants` takes over. */
  lemma ParticipantsUpdatedShowsRoster(s: ClientState, t: Tables, sid: string)
    requires Mirrors(s, t, sid)
    ensures var r := UpdateParticipants(s, ParticipantsOf(t.participants, sid));
      && Mirrors(r, t, sid)
      && forall p :: p in r.participants <==> p in t.participants && p.sessionId == sid
  {
  }

  /** `votes:updated` carries the session's vote rows, which `updateVotes` takes over. */
  lemma VotesUpdatedKeepsMirror(s: ClientState, t: Tables, sid: string, votes: seq<Vote>)
    requires Mirrors(s, t, sid)
    ensures Mirrors(UpdateVotes(s, VotesOf(votes, sid)), t.(votes := votes), sid)
  {
  }

  /** `phase:changed` gives the client the phase the server stored for its session. */
  lemma PhaseChangedKeepsMirror(s: ClientState, t: Tables, sid: string, phase: string, now: int)
    requires Mirrors(s, t, sid) && sid in t.sessions
    ensures var t1 := t.(sessions := Queries.SetPhase(t.sessions, sid, phase, now));
      && Mirrors(SetPhase(s, phase), t1, sid)
      && SetPhase(s, phase).currentPhase == t1.sessions[sid].currentPhase
  {
  }

  /**
   * The pages show the facilitator's controls exactly to a caller whose
   * `phase:change` the server does not refuse for its role.
   */
  lemma FacilitatorControlsMatchServer(s: ClientState, t: Tables, who: Identity, phase: string, now: int)
    requires s.user == Some(who)
    ensures !IsFacilitator(s) <==> PhaseChangeStep(t, who, phase, now) == Refuse(t, "Only facilitator can change phase")
  {
  }

  /**
   * On a copy that agrees with the server, the page queries give the server's
   * counts: the votes on a target, the caller's votes, and whether the caller
   * voted for a target.
   */
  lemma QueriesMatchServer(s: ClientState, t: Tables, who: Identity, targetId: string)
    requires Mirrors(s, t, who.sessionId) && s.user == Some(who)
    ensures VoteCount(s, targetId) == CountByTarget(t.votes, who.sessionId, targetId)
    ensures UserVoteCount(s) == CountByUser(t.votes, who.sessionId, who.email)
    ensures HasUserVoted(s, targetId) == HasVote(t.votes, who.sessionId, who.email, targetId)
  {
    var sid := who.sessionId;
    CountOfFilter(VoteFor(targetId), VoteInSession(sid), VoteOnTarget(sid, targetId), t.votes);
    CountOfFilter(VoteFrom(who.email), VoteInSession(sid), VoteByUser(sid, who.email), t.votes);
  }
}
