/**
 * What travels over the socket: the identity a magic-link token carries, the
 * intents a client emits and the events the server broadcasts.
 */
module Protocol {
  import opened Wrappers
  import opened Schema

  /** The claims of a verified token, kept as the socket's data once it has joined. */
  datatype Identity = Identity(sessionId: string, email: string, role: string)

  /** The full state sent to a client that has just joined. */
  datatype Snapshot = Snapshot(
    session: Option<Session>,
    notes: seq<Note>,
    groups: seq<Group>,
    votes: seq<Vote>,
    actions: seq<ActionItem>,
    participants: seq<Participant>)

  /**
   * A string field of a socket payload: left out of the object (`undefined`),
   * JSON `null`, or a string. The handlers tell the first two apart.
   */
  datatype Field = Missing | Null | Given(value: string)

  /** Events from server to clients. An absent `toGroup` is JSON `null`; `toColumn` echoes the request's field. */
  datatype Event =
    | SessionState(snapshot: Snapshot)
    | ParticipantsUpdated(participants: seq<Participant>)
    | NoteAdded(note: Note)
    | NoteEdited(noteId: string, text: string)
    | NoteDeleted(noteId: string)
    | NoteMoved(noteId: string, toGroup: Option<string>, toColumn: Field)
    | GroupCreated(group: Group, noteIds: seq<string>)
    | GroupUpdated(groupId: string, title: string)
    | GroupMoved(groupId: string, column: string)
    | GroupDeleted(groupId: string)
    | VotesUpdated(votes: seq<Vote>)
    | ActionCreated(action: ActionItem)
    | PhaseChanged(phase: string)
    | Error(message: string)

  /** Who receives an event: everybody in a session's room, or only the socket that sent the request. */
  datatype Recipient = Room(sessionId: string) | Caller

  datatype Emission = Emission(to: Recipient, event: Event)

  /** Requests from a client to the server, one per socket event name. */
  datatype Intent =
    | Join(token: string)
    | NoteAdd(column: string, text: string)
    | NoteEdit(noteId: string, text: string)
    | NoteDelete(noteId: string)
    | NoteMove(noteId: string, toGroup: Option<string>, toColumn: Field)
    | GroupCreate(column: string, noteIds: seq<string>)
    | GroupUpdate(groupId: string, title: string)
    | GroupMove(groupId: string, column: string)
    | VoteCast(targetId: string, targetType: string)
    | VoteRemove(targetId: string)
    | ActionCreate(title: string, assignee: string, linkedTo: Option<string>)
    | PhaseChange(phase: string)
}
