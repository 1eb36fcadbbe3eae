/**
 * The relational schema of the session store: one datatype per table row, the
 * values its CHECK constraints admit, and the integrity the store keeps
 * (PRIMARY KEY, UNIQUE, CHECK and FOREIGN KEY clauses).
 *
 * Columns, roles, statuses, target types and phases are kept as the strings the
 * program stores; a CHECK constraint is a predicate on that string.
 */
module Schema {
  import opened Wrappers
  import opened Seqs
  import opened Text

  /**
   * A value of the INTEGER-affinity column `votes_per_person` as the driver
   * reads it back: a number (an integer, or a REAL for a fraction), or text
   * SQLite could not read as a number.
   */
  datatype Stored = Num(x: real) | Txt(s: string)

  /** What the column keeps of a bound string: the number it spells, if it spells one, else the text itself. */
  function Affinity(s: string): Stored {
    var d := DecimalValue(Trim(s));
    if d.Some? then Num(d.value) else Txt(s)
  }

  /** The number JavaScript reads from a stored value (`Number` on text); `None` is NaN. */
  function NumberOf(q: Stored): Option<real> {
    match q
    case Num(x) => Some(x)
    case Txt(s) => ToNumber(s)
  }

  /** JavaScript's `n >= q`: false when `q` reads as NaN. */
  predicate AtLeast(n: int, q: Stored) {
    NumberOf(q).Some? && n as real >= NumberOf(q).value
  }

  /** JavaScript's `n < q`: false when `q` reads as NaN. */
  predicate Below(n: int, q: Stored) {
    NumberOf(q).Some? && (n as real) < NumberOf(q).value
  }

  /** JavaScript truthiness of a stored value: 0 and "" are falsy. */
  predicate StoredTruthy(q: Stored) {
    match q
    case Num(x) => x != 0.0
    case Txt(s) => s != ""
  }

  /** A whole number of votes, as `Number.isInteger` tests it. */
  predicate IsWhole(q: Stored) {
    q.Num? && q.x == q.x.Floor as real
  }

  /** A count below the quota is not at it; for a number the two are each other's negation. */
  lemma BelowNotAtLeast(n: int, q: Stored)
    ensures Below(n, q) ==> !AtLeast(n, q)
    ensures q.Num? ==> (Below(n, q) <==> !AtLeast(n, q))
  {
  }

  /** Text the column keeps as text (not blank) is NaN to JavaScript, so no count is at or below it. */
  lemma KeptTextIsNaN(s: string)
    requires Affinity(s) == Txt(s) && Trim(s) != ""
    ensures NumberOf(Affinity(s)).None?
    ensures forall n: int :: !AtLeast(n, Txt(s)) && !Below(n, Txt(s))
  {
    assert NumberOf(Txt(s)).None?;
  }

  /** Text the column converts reads back as the same number JavaScript would read from it. */
  lemma ConvertedTextAgrees(s: string)
    requires Affinity(s).Num?
    ensures NumberOf(Affinity(s)) == ToNumber(s)
  {
  }

  /** Under a whole quota, a count whose predecessor was not at the quota is within it. */
  lemma WholeQuotaCaps(n: int, q: Stored)
    requires IsWhole(q) && !AtLeast(n - 1, q)
    ensures n as real <= q.x
  {
    var k := q.x.Floor;
    assert ((n - 1) as real) < k as real;
    assert n - 1 < k;
  }

  /** A row of `sessions`. */
  datatype Session = Session(
    id: string,
    facilitatorEmail: string,
    votesPerPerson: Stored,
    currentPhase: string,
    createdAt: int,
    updatedAt: int)

  /** A row of `participants`; `id` is the AUTOINCREMENT key. */
  datatype Participant = Participant(
    id: nat,
    sessionId: string,
    email: string,
    role: string,
    status: string,
    joinedAt: Option<int>)

  /** A row of `notes`; `groupId` is a nullable reference without a foreign key. */
  datatype Note = Note(
    id: string,
    sessionId: string,
    authorEmail: string,
    column: string,
    text: string,
    groupId: Option<string>,
    createdAt: int)

  /** A row of `groups`. */
  datatype Group = Group(
    id: string,
    sessionId: string,
    title: string,
    column: string,
    createdAt: int)

  /** A row of `votes`; `id` is the AUTOINCREMENT key. */
  datatype Vote = Vote(
    id: nat,
    sessionId: string,
    email: string,
    targetId: string,
    targetType: string,
    createdAt: int)

  /** A row of `action_items`. */
  datatype ActionItem = ActionItem(
    id: string,
    sessionId: string,
    title: string,
    assignee: string,
    linkedTo: Option<string>,
    createdAt: int)

  /** The phase every new session starts in (the column default and the INSERT literal). */
  const InitialPhase: string := "waiting"
  const Facilitator: string := "facilitator"
  const Pending: string := "pending"
  const Joined: string := "joined"

  predicate IsNoteColumn(c: string) { c == "start" || c == "stop" || c == "continue" }
  predicate IsGroupColumn(c: string) { IsNoteColumn(c) || c == "mixed" }
  predicate IsRole(r: string) { r == Facilitator || r == "participant" }
  predicate IsStatus(s: string) { s == Pending || s == Joined }
  predicate IsTargetType(t: string) { t == "note" || t == "group" }

  /** JavaScript truthiness of a nullable string: `null` and `""` are falsy. */
  predicate Truthy(s: Option<string>) { s.Some? && s.value != "" }

  // Keys of the PRIMARY KEY and UNIQUE constraints.
  function ParticipantRowId(p: Participant): nat { p.id }
  function ParticipantKey(p: Participant): (string, string) { (p.sessionId, p.email) }
  function NoteId(n: Note): string { n.id }
  function GroupId(g: Group): string { g.id }
  function VoteRowId(v: Vote): nat { v.id }
  function VoteKey(v: Vote): (string, string, string) { (v.sessionId, v.email, v.targetId) }
  function ActionId(a: ActionItem): string { a.id }

  /** The whole store. Rows are held in insertion order. */
  datatype Tables = Tables(
    sessions: map<string, Session>,
    participants: seq<Participant>,
    notes: seq<Note>,
    groups: seq<Group>,
    votes: seq<Vote>,
    actions: seq<ActionItem>,
    nextParticipantId: nat,
    nextVoteId: nat)

  const EmptyTables: Tables := Tables(map[], [], [], [], [], [], 1, 1)

  ghost predicate ValidParticipants(sessions: map<string, Session>, ps: seq<Participant>, nextId: nat) {
    && (forall p :: p in ps ==> IsRole(p.role) && IsStatus(p.status) && p.sessionId in sessions && p.id < nextId)
    && DistinctBy(ParticipantRowId, ps)
    && DistinctBy(ParticipantKey, ps)
  }

  ghost predicate ValidNotes(sessions: map<string, Session>, notes: seq<Note>) {
    && (forall n :: n in notes ==> IsNoteColumn(n.column) && n.sessionId in sessions)
    && DistinctBy(NoteId, notes)
  }

  ghost predicate ValidGroups(sessions: map<string, Session>, groups: seq<Group>) {
    && (forall g :: g in groups ==> IsGroupColumn(g.column) && g.sessionId in sessions)
    && DistinctBy(GroupId, groups)
  }

  ghost predicate ValidVotes(sessions: map<string, Session>, votes: seq<Vote>, nextId: nat) {
    && (forall v :: v in votes ==> IsTargetType(v.targetType) && v.sessionId in sessions && v.id < nextId)
    && DistinctBy(VoteRowId, votes)
    && DistinctBy(VoteKey, votes)
  }

  ghost predicate ValidActions(sessions: map<string, Session>, actions: seq<ActionItem>) {
    && (forall a :: a in actions ==> a.sessionId in sessions)
    && DistinctBy(ActionId, actions)
  }

  /** Every constraint of the schema holds. */
  ghost predicate ValidTables(t: Tables) {
    && (forall id :: id in t.sessions ==> t.sessions[id].id == id)
    && ValidParticipants(t.sessions, t.participants, t.nextParticipantId)
    && ValidNotes(t.sessions, t.notes)
    && ValidGroups(t.sessions, t.groups)
    && ValidVotes(t.sessions, t.votes, t.nextVoteId)
    && ValidActions(t.sessions, t.actions)
  }

  lemma EmptyTablesValid()
    ensures ValidTables(EmptyTables)
  {
  }
}
