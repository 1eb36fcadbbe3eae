# Retrospective — a Dafny model

The system runs Start/Stop/Continue retrospectives. A facilitator creates a session over HTTP by listing the participants' emails and a vote quota. Everyone joins the session's room over a socket with a magic-link token. The session then moves through its phases:

- **brainstorm:** participants write notes in three columns;
- **grouping:** notes are dragged together into groups;
- **voting:** each participant votes on groups and loose notes, up to the quota;
- **actions:** the facilitator records action items.

The session can also be exported as one JSON document.

The model covers the server and the client logic that decides what is sent and shown:

- **SQLite store** (`server/db.js`):
  - `Schema` holds the row types and the CHECK, PRIMARY KEY, UNIQUE and FOREIGN KEY constraints as `ValidTables`, with unbounded auto-increment counters.
  - `Queries` gives every prepared statement's meaning as a function over rows, and proves that each accepted statement keeps the constraints.
  - `Store.Database` is a class with one method per statement. Each method is proved against those functions.
- **Socket handlers** (`server/socket-handlers.js`):
  - `Engine` has one pure step function per handler, giving the store afterwards and the emissions in order.
  - `Engine.RetroEngine` is a class over a `Database` whose handler methods are proved to perform exactly those steps. They also keep the constraints, and every user's votes stay ones the quota check admitted.
  - `EngineRules` proves what the handlers promise:
    - author-only edit and delete;
    - the group clean-up after a note leaves;
    - quota and duplicate-vote refusals;
    - facilitator-only actions and phase changes;
    - join behaviour.
- **HTTP routes** (`server/server.js`): `Server` covers session creation (validation order, the participant inserts), the session read, and the export with its vote tally loop. The facilitator guard of `server/auth.js` is part of the export route.
- **Client store** (`client/src/store/retroStore.js`):
  - `Projector` models the reducers and selectors as functions.
  - It proves that the copy of a client which applied the server's events agrees with the server's rows.
  - It also proves that the selectors agree with the server's counting queries.
- **Pages and components:**
  - `Setup`: the email list and the create button;
  - `PhaseControls`: the next-phase map;
  - `VoteButton`: cast or withdraw;
  - `Grouping`: the drag-and-drop intents;
  - `Voting`: votable items per column and the top-five panel;
  - `ActionItems`: the ranked list, the action form and short names.
- **JavaScript helpers:**
  - `Text` models `trim` (ECMA-262 whitespace), single-character `split`, `substring(0, n)` and `Number` on decimal notation;
  - `Ranking` models the stable `Array.prototype.sort` by descending votes;
  - `Seqs` models `filter`, `map` and counting.

Things the model takes as parameters:
- Ids (`nanoid`), clocks (`Date.now()`) and the token verifier (`verifyMagicToken`).
- The caller of a socket handler is the `Identity` the join stored on the socket.
- Which clients receive an emission is given by its `Recipient`: the caller or the session's room.

Where the intended behaviour and the code differ in the following ways, the model follows the code:
- **Single facilitator.** Session creation is meant to leave exactly one facilitator. The code guarantees that only for distinct emails (see Findings).
- **Group size.** A group is meant to hold at least two notes. `group:create` (server/socket-handlers.js:204-215) accepts any number of note ids and never cleans up the groups those notes leave; `EngineRules.GroupCreateLeavesSingletons` takes one note out of a two-note group and leaves two one-note groups. Only `note:move` and `note:delete` clean up the group a note left; `note:move` to an id that names no group stores that id all the same.
- **Vote quota.** The quota is meant to be a whole number of votes, at least one. The route accepts any value that is truthy and not below 1, the column keeps fractions and non-numeric text, and the handler compares with JavaScript's `>=` (see Findings).
- **Duplicate votes.** The handler means to answer a second vote on the same item with "Already voted for this item", but the answer it gives is "Failed to cast vote" (see Findings).

## Model

| member | source | states |
|---|---|---|
| Schema.EmptyTablesValid | server/db.js:22-100 | a freshly created schema, with every table empty, satisfies every constraint |
| Schema.BelowNotAtLeast | server/socket-handlers.js:270 | a count below the quota is not at it; for a numeric quota the two comparisons are each other's negation |
| Schema.KeptTextIsNaN | server/db.js:28 | non-blank text the INTEGER column keeps as text is NaN to JavaScript, so no count is at or below it |
| Schema.ConvertedTextAgrees | server/db.js:28 | text the column converts to a number reads back as the number JavaScript reads from the text |
| Schema.WholeQuotaCaps | server/socket-handlers.js:270 | under a whole quota, a count whose predecessor was not at the quota is at most the quota |
| Schema.Affinity | server/db.js:28 | INTEGER affinity on a bound string; Schema.KeptTextIsNaN and ConvertedTextAgrees say how JavaScript then reads it |
| Schema.AtLeast | server/socket-handlers.js:270 | JavaScript's `>=` of a count and a stored quota; Schema.BelowNotAtLeast and WholeQuotaCaps relate it to `<` and to a count bound |
| Schema.Below | client/src/components/VoteButton.jsx:10 | JavaScript's `<` of a count and a stored quota; Schema.BelowNotAtLeast relates it to the server's `>=` |
| Queries.SessionById | server/db.js:115-117 | finds the session row exactly when the id is present |
| Queries.SetPhase | server/db.js:119-121 | the phase and update time of that session become the given values, whatever the phase string; no other session or field changes |
| Queries.DeleteSession | server/db.js:123-125 | the session is removed, and ON DELETE CASCADE removes exactly that session's participants, notes, groups, votes and action items |
| Queries.ParticipantsOf | server/db.js:135-137 | the roster is exactly the participant rows of the session |
| Queries.ParticipantByEmail | server/db.js:143-145 | finds a row with that session and email, or there is none |
| Queries.MarkJoined | server/db.js:139-141 | exactly the (session, email) rows become joined at the given time; nothing else changes |
| Queries.NoteById | server/socket-handlers.js:97 | finds the note with that id, or there is none |
| Queries.NotesOf | server/db.js:155-157 | exactly the session's notes, in insertion order |
| Queries.NotesInGroup | server/socket-handlers.js:178-179 | exactly the notes whose group_id is the group |
| Queries.CountInGroup | server/socket-handlers.js:129 | the size of that group, and 0 exactly when no note is in it |
| Queries.SetNoteGroup | server/db.js:159-161 | only group_id of the matching note changes |
| Queries.SetNoteText | server/socket-handlers.js:104 | only the text of the matching note changes |
| Queries.SetNoteColumn | server/socket-handlers.js:163 | only the column of the matching note changes |
| Queries.DeleteNote | server/db.js:163-165 | removes the note with that id and no other |
| Queries.GroupById | server/db.js:64-73 | finds the group with that id, or there is none |
| Queries.GroupsOf | server/db.js:175-177 | exactly the session's groups |
| Queries.SetGroupTitle | server/db.js:179-181 | only the title of the matching group changes |
| Queries.SetGroupColumn | server/db.js:183-185 | only the column of the matching group changes |
| Queries.DeleteGroup | server/db.js:187-189 | removes the group with that id and no other |
| Queries.VotesOf | server/db.js:203-205 | exactly the session's votes |
| Queries.HasVote | server/db.js:85 | true exactly when a vote with that session, email and target exists |
| Queries.RemoveVote | server/db.js:199-201 | deletes exactly the votes matching session, email and target |
| Queries.ActionById | server/db.js:91-99 | finds the action item with that id, or there is none |
| Queries.ActionsOf | server/db.js:223-225 | exactly the session's action items |
| Queries.DeleteAction | server/db.js:227-229 | removes the action item with that id and no other |
| Queries.InsertSessionKeepsValid | server/db.js:110-113 | inserting a session under a new id keeps every constraint |
| Queries.SetPhaseKeepsValid | server/db.js:119-121 | a phase update keeps every constraint |
| Queries.DeleteSessionKeepsValid | server/db.js:123-125 | the cascading delete keeps every constraint, including uniqueness |
| Queries.InsertParticipantKeepsValid | server/db.js:130-133 | a participant insert that the role CHECK, the foreign key and UNIQUE(session_id, email) accept keeps every constraint |
| Queries.MarkJoinedKeepsValid | server/db.js:139-141 | marking joined keeps every constraint |
| Queries.InsertNoteKeepsValid | server/db.js:150-153 | an accepted note insert keeps every constraint |
| Queries.SetNoteGroupKeepsValid | server/db.js:159-161 | regrouping keeps every constraint |
| Queries.SetNoteTextKeepsValid | server/socket-handlers.js:104 | a text update keeps every constraint |
| Queries.SetNoteColumnKeepsValid | server/socket-handlers.js:163 | a column update that the CHECK accepts keeps every constraint |
| Queries.DeleteNoteKeepsValid | server/db.js:163-165 | deleting a note keeps every constraint |
| Queries.InsertGroupKeepsValid | server/db.js:170-173 | an accepted group insert keeps every constraint |
| Queries.SetGroupTitleKeepsValid | server/db.js:179-181 | a title update keeps every constraint |
| Queries.SetGroupColumnKeepsValid | server/db.js:183-185 | a group column update that the CHECK accepts keeps every constraint |
| Queries.DeleteGroupKeepsValid | server/db.js:187-189 | deleting a group keeps every constraint |
| Queries.VoteInsertError | server/db.js:77-86 | a vote insert is refused exactly when a constraint fails; each refusal is an extended code starting with SQLITE_CONSTRAINT and never the bare code; a duplicate of a well-typed vote in an existing session gives SQLITE_CONSTRAINT_UNIQUE |
| Queries.InsertVoteKeepsValid | server/db.js:194-197 | a vote insert that the target-type CHECK, the foreign key and UNIQUE(session_id, email, target_id) accept keeps every constraint |
| Queries.RemoveVoteKeepsValid | server/db.js:199-201 | removing votes keeps every constraint |
| Queries.InsertActionKeepsValid | server/db.js:218-221 | an accepted action insert keeps every constraint |
| Queries.DeleteActionKeepsValid | server/db.js:227-229 | deleting an action item keeps every constraint |
| Queries.SessionMembersLe | server/socket-handlers.js:171-181 | the group members found among the session's notes are no more than the group's count |
| Queries.MarkJoinedAgain | server/db.js:139-141 | a second status update only refreshes joined_at |
| Queries.RemoveAbsentVote | server/db.js:199-201 | removing a vote that is not there changes nothing |
| Queries.SetNoteGroupKeepsIds | server/db.js:159-161 | regrouping neither adds nor removes a note id |
| Store.Database.constructor | server/db.js:22-106 | the store starts with all tables empty and valid |
| Store.Database.CreateSession | server/db.js:110-113 | inserts the session in phase 'waiting' exactly when the id is new, else reports the refusal and changes nothing |
| Store.Database.GetSession | server/db.js:115-117 | returns the session row by id; nothing changes |
| Store.Database.UpdatePhase | server/db.js:119-121 | the store becomes the one with that phase set |
| Store.Database.DeleteSession | server/db.js:123-125 | the store becomes the cascade of the delete |
| Store.Database.CreateParticipant | server/db.js:130-133 | inserts a pending row exactly when the constraints accept it, else changes nothing |
| Store.Database.ParticipantsBySession | server/db.js:135-137 | returns the session's roster; nothing changes |
| Store.Database.UpdateStatus | server/db.js:139-141 | the store becomes the one with that participant marked joined |
| Store.Database.GetParticipantByEmail | server/db.js:143-145 | returns the row of that session and email; nothing changes |
| Store.Database.CreateNote | server/db.js:150-153 | appends the note exactly when the constraints accept it, else changes nothing |
| Store.Database.NotesBySession | server/db.js:155-157 | returns the session's notes; nothing changes |
| Store.Database.GetNoteById | server/socket-handlers.js:97 | returns the note with that id; nothing changes |
| Store.Database.CountByGroup | server/socket-handlers.js:129 | returns the number of notes in the group; nothing changes |
| Store.Database.UpdateGroup | server/db.js:159-161 | the store becomes the one with that note regrouped |
| Store.Database.UpdateText | server/socket-handlers.js:104 | the store becomes the one with that note's text replaced |
| Store.Database.UpdateNoteColumn | server/socket-handlers.js:163 | with `null` bound as no value, writes the column exactly when NOT NULL and the CHECK allow it (both only refuse when a row matches), else changes nothing |
| Store.Database.DeleteNote | server/db.js:163-165 | the store becomes the one with that note removed |
| Store.Database.CreateGroup | server/db.js:170-173 | appends the group exactly when the constraints accept it, else changes nothing |
| Store.Database.GroupsBySession | server/db.js:175-177 | returns the session's groups; nothing changes |
| Store.Database.UpdateTitle | server/db.js:179-181 | the store becomes the one with that group retitled |
| Store.Database.UpdateGroupColumn | server/db.js:183-185 | writes the column exactly when the CHECK allows it, else changes nothing |
| Store.Database.DeleteGroup | server/db.js:187-189 | the store becomes the one with that group removed |
| Store.Database.CastVote | server/db.js:194-197 | appends the vote exactly when the constraints accept it; otherwise it changes nothing and returns the extended result code of the refusing constraint |
| Store.Database.RemoveVote | server/db.js:199-201 | the store becomes the one with those votes removed |
| Store.Database.VotesBySession | server/db.js:203-205 | returns the session's votes; nothing changes |
| Store.Database.CountVotesByUser | server/db.js:207-209 | returns the number of the user's votes in the session; nothing changes |
| Store.Database.CountVotesByTarget | server/db.js:211-213 | returns the number of votes on the target in the session; nothing changes |
| Store.Database.CreateAction | server/db.js:218-221 | appends the action item exactly when the constraints accept it, else changes nothing |
| Store.Database.ActionsBySession | server/db.js:223-225 | returns the session's action items; nothing changes |
| Store.Database.DeleteAction | server/db.js:227-229 | the store becomes the one with that action removed |
| Engine.SnapshotOf | server/socket-handlers.js:45-58 | the joining client gets the session row by id (none when it does not exist), and exactly the session's notes, groups, votes, actions and participants |
| Engine.QuotaRespected | server/socket-handlers.js:266-275 | the invariant the handlers keep: before each user's latest vote in a session their count was not at the session's quota; Engine.CastKeepsQuota, RemoveKeepsQuota and PhaseKeepsQuota preserve it, and Engine.WholeQuotaRespected turns it into a count bound |
| Engine.JoinStep | server/socket-handlers.js:20-58 | only participants change, and the caller's snapshot shows the store after the join; EngineRules.JoinAgain and JoinAudience state the rest |
| Engine.NoteAddStep | server/socket-handlers.js:68-91 | only notes change, and they change exactly when the insert's constraints accept the new row |
| Engine.NoteEditStep | server/socket-handlers.js:94-110 | only notes change; EngineRules.NonAuthorRefused and AuthorEditsOnlyText state the rest |
| Engine.NoteDeleteStep | server/socket-handlers.js:113-147 | only notes and groups change; EngineRules.NonAuthorRefused and SettleOutcome state the rest |
| Engine.NoteMoveStep | server/socket-handlers.js:150-201 | only notes and groups change; EngineRules.NoteMoveStayKeepsGroups, NoteMoveColumnOnlyWhenSupplied, NoteMoveWritesColumn and NullColumnRefused state the rest |
| Engine.GroupCreateStep | server/socket-handlers.js:204-230 | only notes and groups change; EngineRules.GroupCreateAssigns and GroupCreateLeavesSingletons state the rest |
| Engine.GroupUpdateStep | server/socket-handlers.js:233-244 | only groups change; Projector.GroupUpdatedKeepsMirror relates it to the client |
| Engine.GroupMoveStep | server/socket-handlers.js:247-258 | only groups change; Projector.GroupMovedKeepsMirror relates it to the client |
| Engine.VoteCastStep | server/socket-handlers.js:261-288 | only the votes and the vote id counter change; EngineRules.VoteCastKeepsQuota, VoteCastOverQuota, VoteCastDuplicate, VoteCastAddsOne and AlreadyVotedNeverSent state the rest |
| Engine.CheckedVoteCastStep | server/socket-handlers.js:279-286 | the handler with the corrected catch block; only the votes and the counter change, and EngineRules.CheckedVoteCastDuplicate states the rest |
| Engine.VoteRemoveStep | server/socket-handlers.js:291-303 | only votes change; EngineRules.VoteRemoveExact and VoteRemoveKeepsQuota state the rest |
| Engine.ActionCreateStep | server/socket-handlers.js:306-334 | only action items change; EngineRules.NonFacilitatorRefused states the role check |
| Engine.PhaseChangeStep | server/socket-handlers.js:337-354 | only sessions change and none is added or removed; EngineRules.NonFacilitatorRefused and PhaseChangeStoresAnyPhase state the rest |
| Engine.Detach | server/socket-handlers.js:177-186 | only notes change: the single remaining note of the group is ungrouped and announced |
| Engine.Settle | server/socket-handlers.js:171-192 | only notes and groups change |
| Engine.SettleIf | server/socket-handlers.js:170 | only notes and groups change; nothing at all happens unless the old group is truthy and the note left it |
| Engine.MoveNoteRow | server/socket-handlers.js:155-164 | the row writes of a move touch only the notes table; a missing column writes only the group, a present one (null included) is compared and written after it, and EngineRules.NullColumnRefused states the null case |
| Engine.AssignGroup | server/socket-handlers.js:213-215 | exactly the listed notes get the new group; other fields and notes are untouched |
| Engine.CastKeepsQuota | server/socket-handlers.js:266-275 | a vote cast while the caller's count is not at the quota keeps every user's votes admitted by the quota |
| Engine.WholeQuotaRespected | server/socket-handlers.js:266-275 | under a whole quota, the quota invariant means no user holds more votes than the quota |
| Engine.CastFailureMessage | server/socket-handlers.js:279-286 | the catch block answers "Already voted for this item" exactly for the bare code SQLITE_CONSTRAINT, and "Failed to cast vote" for any other error |
| Engine.CheckedCastFailureMessage | server/socket-handlers.js:279-286 | the corrected catch block answers "Already voted for this item" exactly for SQLITE_CONSTRAINT_UNIQUE |
| Engine.RemoveKeepsQuota | server/socket-handlers.js:295 | removing votes keeps every user's votes admitted by the quota |
| Engine.PhaseKeepsQuota | server/socket-handlers.js:347 | a phase change keeps every quota |
| Engine.RetroEngine.constructor | server/socket-handlers.js:15-16 | the handlers start over a valid store with nothing emitted |
| Engine.RetroEngine.Join | server/socket-handlers.js:20-65 | an invalid token emits one error and changes nothing; a valid one performs the join step and returns the token's identity |
| Engine.RetroEngine.NoteAdd | server/socket-handlers.js:68-91 | performs the note:add step: inserts an ungrouped note and broadcasts it, or emits the error |
| Engine.RetroEngine.NoteEdit | server/socket-handlers.js:94-110 | performs the note:edit step |
| Engine.RetroEngine.DetachRemaining | server/socket-handlers.js:177-187 | performs the detach step |
| Engine.RetroEngine.SettleGroup | server/socket-handlers.js:171-195 | performs the clean-up step on the group the note left |
| Engine.RetroEngine.AnnounceAndSettle | server/socket-handlers.js:166-196 | emits the announcement, then performs the conditional clean-up |
| Engine.RetroEngine.NoteDelete | server/socket-handlers.js:113-147 | performs the note:delete step, including the clean-up |
| Engine.RetroEngine.WriteNoteMove | server/socket-handlers.js:155-164 | performs the row writes of a move: the group, then a present column unless it equals the note's, which fails for a missing note and is refused by NOT NULL for null and by the CHECK for a non-column |
| Engine.RetroEngine.NoteMove | server/socket-handlers.js:150-201 | performs the note:move step: a refused write keeps the group write and emits only "Failed to move note"; otherwise note:moved echoes the column field and the clean-up follows |
| Engine.RetroEngine.GroupCreate | server/socket-handlers.js:204-230 | performs the group:create step |
| Engine.RetroEngine.GroupUpdate | server/socket-handlers.js:233-244 | performs the group:update step |
| Engine.RetroEngine.GroupMove | server/socket-handlers.js:247-258 | performs the group:move step |
| Engine.RetroEngine.VoteCast | server/socket-handlers.js:261-288 | performs the vote:cast step: a missing session gives "Failed to cast vote", the quota check gives "Vote limit reached", and a refused insert gives the catch block's message for the driver's code; it keeps every user's votes admitted by the quota |
| Engine.RetroEngine.VoteRemove | server/socket-handlers.js:291-303 | performs the vote:remove step |
| Engine.RetroEngine.ActionCreate | server/socket-handlers.js:306-334 | performs the action:create step |
| Engine.RetroEngine.PhaseChange | server/socket-handlers.js:337-354 | performs the phase:change step |
| EngineRules.DetachKeepsNotes | server/socket-handlers.js:177-186 | detaching keeps every note's position and every field but group_id |
| EngineRules.DetachEmptiesGroup | server/socket-handlers.js:177-186 | once detached, a group with at most one note has no note of the session left |
| EngineRules.SettleOutcome | server/socket-handlers.js:171-195 | a group keeping two or more notes is left alone; otherwise it is deleted, its last note ungrouped, and exactly `[note:moved, group:deleted]` or `[group:deleted]` is broadcast |
| EngineRules.SettleOne | server/socket-handlers.js:177-191 | with one note left, that note is ungrouped and the group deleted |
| EngineRules.SettleNone | server/socket-handlers.js:189-191 | with no note left the group is deleted and only group:deleted is broadcast |
| EngineRules.SettleIfKeepsNotes | server/socket-handlers.js:170 | the conditional clean-up keeps every note's position and every field but group_id |
| EngineRules.NoteMoveStayKeepsGroups | server/socket-handlers.js:168-170 | a move within the same group, or of an ungrouped note, deletes or changes no group |
| EngineRules.MoveNoteRowColumns | server/socket-handlers.js:161-164 | the row writes change a column only when one is given, and only on that note |
| EngineRules.SettleIfKeepsColumns | server/socket-handlers.js:170-195 | the clean-up changes no note's column |
| EngineRules.NoteMoveColumnOnlyWhenSupplied | server/socket-handlers.js:150-201 | a move changes a note's column only when a column is given, and then to that column on that note |
| EngineRules.MoveNoteRowWritesColumn | server/socket-handlers.js:161-164 | a given column that differs from the note's is written |
| EngineRules.NoteMoveWritesColumn | server/socket-handlers.js:150-201 | after a move with a differing column, the note holds that column |
| EngineRules.NullColumnRefused | server/socket-handlers.js:159-164 | a null column on an existing note is refused by NOT NULL after the group write: the group write stays, only the caller gets "Failed to move note" (line 199), and there is no note:moved and no clean-up |
| EngineRules.NonAuthorRefused | server/socket-handlers.js:99-102 | edit and delete by anyone but the author emit the refusal and change nothing (delete: lines 118-121) |
| EngineRules.AuthorEditsOnlyText | server/socket-handlers.js:104-105 | the author's edit changes that note's text and nothing else in the store |
| EngineRules.GroupByIdAppend | server/db.js:66 | a group appended under a new id is the one found by that id |
| EngineRules.GroupCreateAssigns | server/socket-handlers.js:210-215 | the new group is untitled and in the requested column, and holds exactly the listed notes |
| EngineRules.VoteCastKeepsQuota | server/socket-handlers.js:266-275 | a cast keeps every user's votes admitted by the session's quota |
| EngineRules.VoteCastOverQuota | server/socket-handlers.js:270-273 | at or over the quota, as JavaScript's `>=` compares them, the cast is refused with "Vote limit reached" and nothing changes |
| EngineRules.VoteCastDuplicate | server/socket-handlers.js:275-286 | a second vote on the same target changes nothing; past the quota check it is refused with "Failed to cast vote" |
| EngineRules.AlreadyVotedNeverSent | server/socket-handlers.js:279-286 | as written, vote:cast never sends "Already voted for this item" |
| EngineRules.CheckedVoteCastDuplicate | server/socket-handlers.js:279-286 | with the corrected catch block, a duplicate past the quota check gets "Already voted for this item", a bad target type "Failed to cast vote", and the store changes as it does as written |
| EngineRules.FractionalQuotaOvershoots | server/socket-handlers.js:270 | under a fractional quota, a caller holding its whole part gets one more vote and ends above the quota |
| EngineRules.TextQuotaNeverLimits | server/socket-handlers.js:270 | under a quota stored as non-numeric text, a cast is never refused for the limit, and each new target adds one vote |
| EngineRules.GroupCreateLeavesSingletons | server/socket-handlers.js:204-215 | creating a group from one note of a two-note group leaves both groups with one note each |
| EngineRules.VoteCastAddsOne | server/socket-handlers.js:275-278 | a successful cast raises the caller's count by one and leaves every other user's count as it was |
| EngineRules.VoteRemoveExact | server/socket-handlers.js:295-298 | removes the caller's vote on that target and no other; without such a vote nothing changes |
| EngineRules.VoteRemoveKeepsQuota | server/socket-handlers.js:295 | a removal keeps every user's votes admitted by the quota |
| EngineRules.NonFacilitatorRefused | server/socket-handlers.js:310-313 | anyone but the facilitator is refused action creation and phase changes (also lines 341-344), and nothing changes |
| EngineRules.PhaseChangeStoresAnyPhase | server/socket-handlers.js:346-349 | the facilitator's phase is stored and broadcast as given, whatever it is, and no other session changes |
| EngineRules.JoinAgain | server/socket-handlers.js:32 | joining again only refreshes the join time |
| EngineRules.JoinAudience | server/socket-handlers.js:32-58 | a join marks the caller joined, sends the roster to the room and the snapshot to the caller alone |
| Server.CreateRejection | server/server.js:56-66 | rejects exactly the requests that fail a validation, with the message of the first failing one in the route's order |
| Server.QuotaGiven | server/server.js:64 | the quota check passes; Server.FractionalQuotaAccepted, TextQuotaAccepted, BooleanQuotaFails and Setup.SentQuota state which quotas do |
| Server.AcceptsCreate | server/server.js:56-66 | every validation passes; Server.CreateRejection gives no message exactly for such a request |
| Server.Invitees | server/server.js:75-78 | one invitee per email, in order, and the facilitator role exactly for the facilitator's email |
| Server.OccursOnce | server/server.js:75-78 | an email in a list without repeats occurs exactly once |
| Server.ExactlyOneFacilitator | server/server.js:75-78 | with distinct emails including the facilitator, exactly one invitee is the facilitator |
| Server.InsertInvitees | server/server.js:80-82 | the inserts only ever append pending, unjoined rows of the new session, and keep the earlier rows |
| Server.InsertInviteesAll | server/server.js:80-82 | distinct invitees not yet in the session are all inserted, in order |
| Server.CreateSessionStep | server/server.js:51-95 | a 400 stores nothing; a quota the insert cannot bind stores nothing; success means a valid request, a new session in 'waiting' with the quota as the column stores it, and a reply naming that session and the invitee list |
| Server.BoundQuota | server/server.js:72 | a number is stored as sent; a string is stored as its column affinity keeps it, and a string stored as a number is the number JavaScript reads from it; null and booleans cannot be stored |
| Server.FractionalQuotaAccepted | server/server.js:64 | a number quota passes exactly when it is at least one, whole or not, and is stored as sent, so 1.5 is accepted |
| Server.TextQuotaAccepted | server/server.js:64 | a quota that is a word, such as "abc", passes the check and is stored as text that JavaScript reads as NaN |
| Server.BooleanQuotaFails | server/server.js:64-72 | the quota `true` passes the check, then the session insert throws: a 500 with nothing stored |
| Server.CreateDistinctEmails | server/server.js:68-90 | with distinct emails creation succeeds, and the roster is exactly the invitees, in order, all pending, with one facilitator |
| Server.RosterOfNewSession | server/server.js:80-82 | the new session's roster is exactly the rows the inserts added |
| Server.AddSessionKeepsQuota | server/server.js:72 | a session without votes keeps every quota |
| Server.CreateSession | server/server.js:51-95 | the route's validation, session insert and participant loop perform the creation step and keep every constraint |
| Server.InsertEach | server/server.js:80-82 | the forEach loop performs the participant inserts, stopping at the first refusal |
| Server.RepeatedEmailLeavesPartialSession | server/server.js:80-94 | emails b, b, a with facilitator a pass validation and get a 500, yet the session is stored with its roster only b, and no facilitator |
| Server.CheckedCreateIsAtomic | server/server.js:56-90 | with a distinct-email check and a whole-quota check, a failing request stores nothing; a success stores the session with a whole quota of at least one and exactly the invitees, pending, and one facilitator |
| Server.CheckedCreateSessionStep | server/server.js:51-95 | the route with a repeated-email and a whole-quota check added before any insert; Server.CheckedCreateIsAtomic states what it guarantees |
| Server.SessionReply | server/server.js:120-154 | 403 when the id is not the token's session, 404 when it does not exist, else the session row and exactly the session's notes, groups, votes, actions and participants |
| Server.GetSession | server/server.js:120-154 | the route's queries give exactly that reply; nothing changes |
| Server.TallyCounts | server/server.js:174-177 | the tally of a target is the number of votes on it, 0 when there are none |
| Server.TallyVotes | server/server.js:174-177 | the forEach loop computes the tally |
| Server.SessionTally | server/server.js:174-177 | a session's tally on a target agrees with `voteQueries.countByTarget` |
| Server.Tally | server/server.js:174-177 | the `voteCounts` object; Server.TallyCounts gives each target its vote count, and Server.TallyVotes computes it by the loop |
| Server.Flatten | server/server.js:179-209 | the export document; Server.ExportContents states every field of it |
| Server.ExportReply | server/server.js:157-216 | 403 for a non-facilitator or another session; otherwise the export of the session's rows |
| Server.ExportContents | server/server.js:179-209 | the export names the session, its facilitator and creation time; it carries every participant (email, role, joined), note (id, author, column, text, group) and action (title, assignee, link, time) in order, and each group with its title, column, exactly its notes' ids and its vote count |
| Server.ExportSession | server/server.js:157-216 | the route's queries, tally loop and projections give exactly that reply; nothing changes |
| Projector.SetSessionState | client/src/store/retroStore.js:30-40 | every list is replaced by the snapshot's, and the phase is read from the session row |
| Projector.AddNote | client/src/store/retroStore.js:46 | the note is appended and nothing else changes |
| Projector.MoveNote | client/src/store/retroStore.js:47-51 | only group_id of the matching note changes |
| Projector.AddGroup | client/src/store/retroStore.js:54-59 | the group is appended, and exactly the listed notes join it |
| Projector.UpdateGroup | client/src/store/retroStore.js:60-64 | only the title of the matching group changes |
| Projector.MoveGroup | client/src/store/retroStore.js:65-69 | only the column of the matching group changes |
| Projector.AddAction | client/src/store/retroStore.js:75 | the action is appended and nothing else changes |
| Projector.UserVoteCount | client/src/store/retroStore.js:86-90 | 0 without a user, else the number of the user's votes |
| Projector.HasUserVoted | client/src/store/retroStore.js:92-96 | true exactly when some vote is on the target and from the user |
| Projector.NotesInGroupOf | client/src/store/retroStore.js:103-106 | exactly the notes in the group |
| Projector.UngroupedNotes | client/src/store/retroStore.js:108-111 | exactly the notes of the column whose group_id is falsy |
| Projector.SnapshotMirrors | client/src/store/retroStore.js:30-40 | applying a join's snapshot makes the client's lists the server's rows of the session |
| Projector.MoveNoteIsUpdateGroup | client/src/store/retroStore.js:47-51 | the client's move is `noteQueries.updateGroup` on the same notes |
| Projector.AddGroupIsAssignGroup | client/src/store/retroStore.js:54-59 | the client's one-pass regroup gives what the server's insert-then-forEach gives |
| Projector.NoteAddedKeepsMirror | client/src/store/retroStore.js:46 | note:added keeps the client in step with the server |
| Projector.NoteMovedKeepsMirror | client/src/store/retroStore.js:47-51 | a note:moved regroup keeps the client in step |
| Projector.GroupCreatedKeepsMirror | client/src/store/retroStore.js:54-59 | group:created keeps the client in step |
| Projector.GroupUpdatedKeepsMirror | client/src/store/retroStore.js:60-64 | group:updated keeps the client in step |
| Projector.GroupMovedKeepsMirror | client/src/store/retroStore.js:65-69 | group:moved keeps the client in step |
| Projector.ActionCreatedKeepsMirror | client/src/store/retroStore.js:75 | action:created keeps the client in step |
| Projector.QueriesMatchServer | client/src/store/retroStore.js:81-96 | on a copy in step with the server, the vote selectors equal the server's countByTarget, countByUser and UNIQUE-key lookup |
| Projector.UpdateParticipants | client/src/store/retroStore.js:43 | `updateParticipants`; Projector.ParticipantsUpdatedShowsRoster states its meaning |
| Projector.UpdateVotes | client/src/store/retroStore.js:72 | `updateVotes`; Projector.VotesUpdatedKeepsMirror states its meaning |
| Projector.SetPhase | client/src/store/retroStore.js:78 | `setPhase`; Projector.PhaseChangedKeepsMirror states its meaning |
| Projector.VoteCount | client/src/store/retroStore.js:81-84 | `getVoteCount`; Projector.QueriesMatchServer states it equals the server's countByTarget |
| Projector.IsFacilitator | client/src/store/retroStore.js:98-101 | `isFacilitator`; Projector.FacilitatorControlsMatchServer states its meaning |
| Projector.ParticipantsUpdatedShowsRoster | client/src/store/retroStore.js:43 | participants:updated gives the client exactly the session's roster and keeps it in step |
| Projector.VotesUpdatedKeepsMirror | client/src/store/retroStore.js:72 | votes:updated keeps the client in step with the server's votes |
| Projector.PhaseChangedKeepsMirror | client/src/store/retroStore.js:78 | phase:changed keeps the client in step and gives it the phase the server stored |
| Projector.FacilitatorControlsMatchServer | client/src/store/retroStore.js:98-101 | the client shows facilitator controls exactly when the server would not refuse a phase change for the caller's role (server/socket-handlers.js:341-344) |
| PhaseControls.NextPhaseIntent | client/src/components/FacilitatorControls.jsx:15-20 | a click requests the successor phase, unless there is none or it is 'complete' |
| PhaseControls.SuccessorOrder | client/src/components/FacilitatorControls.jsx:7-13 | each phase maps to the next one in the session's order, and no other phase maps anywhere |
| PhaseControls.NextPhaseIntents | client/src/components/FacilitatorControls.jsx:7-20 | exactly waiting, brainstorm, grouping and voting emit a change, each to its successor |
| PhaseControls.NextPhase | client/src/components/FacilitatorControls.jsx:7-13 | `nextPhaseMap`; PhaseControls.SuccessorOrder states it is the phase order |
| Projector.Quota | client/src/components/VoteButton.jsx:10 | with a session whose stored quota is truthy, the quota is that value; otherwise it is 0 |
| VoteButton.Click | client/src/components/VoteButton.jsx:12-18 | withdraws the vote when the user has voted, else casts one when votes remain, else emits nothing |
| VoteButton.DisabledIffSilent | client/src/components/VoteButton.jsx:12-23 | the button is disabled exactly when a click would emit nothing |
| VoteButton.NoSessionNoCast | client/src/components/VoteButton.jsx:10 | with no session loaded a click never casts |
| VoteButton.CastAcceptedByServer | client/src/components/VoteButton.jsx:10-16 | on a copy in step with the server, a cast the button sends passes the server's quota and duplicate checks |
| VoteButton.RemoveFindsVote | client/src/components/VoteButton.jsx:7-14 | a withdrawal the button sends finds the vote on the server |
| VoteButton.CanVote | client/src/components/VoteButton.jsx:10 | `canVote`; VoteButton.CastAcceptedByServer, NoSessionNoCast and Voting.RemainingIffCanVote state its meaning |
| VoteButton.Disabled | client/src/components/VoteButton.jsx:23 | the `disabled` attribute; VoteButton.DisabledIffSilent states it is exactly a silent click |
| Grouping.NoTargetNoIntent | client/src/pages/Grouping.jsx:51 | a drop outside every target emits nothing |
| Grouping.GroupCreateOnSameColumn | client/src/pages/Grouping.jsx:56-66 | a group is requested exactly for a drop onto a different note of the same column, with that column and the two ids in order |
| Grouping.OtherColumnNoIntent | client/src/pages/Grouping.jsx:61 | a drop onto a note of another column emits nothing |
| Grouping.NeverMixed | client/src/pages/Grouping.jsx:61-65 | when all notes have note columns, a requested group is never 'mixed' |
| Grouping.DropOnGroupMoves | client/src/pages/Grouping.jsx:67-71 | a drop whose `over` id starts with 'group-' (and names no note) moves the note to the id after that prefix, with no column |
| Grouping.DragIntent | client/src/pages/Grouping.jsx:47-72 | `handleDragEnd`; Grouping.NoTargetNoIntent, GroupCreateOnSameColumn, OtherColumnNoIntent, NeverMixed and DropOnGroupMoves state every branch |
| Setup.EmailList | client/src/pages/Setup.jsx:15-18 | every entry is non-empty, holds no line break and has no whitespace at either end |
| Setup.CleanLines | client/src/pages/Setup.jsx:16-18 | trimmed pieces without line breaks, blank ones dropped, are clean entries |
| Setup.EmailListOfLines | client/src/pages/Setup.jsx:15-18 | text typed line by line gives the non-blank lines, trimmed, in order |
| Setup.CreateGuard | client/src/pages/Setup.jsx:20-29 | alerts for fewer than two emails, then for a facilitator missing from the list, else allows sending |
| Setup.SentRequestPassesServerChecks | client/src/pages/Setup.jsx:20-42 | a request the form sends passes the server's email and facilitator checks; it is refused exactly when the quota is missing or below one |
| Setup.SentQuota | client/src/pages/Setup.jsx:190 | the parsed quota field passes the server's quota check exactly when it is a number of at least one |
| Setup.EnabledLeavesFacilitatorCheck | client/src/pages/Setup.jsx:198-200 | with the button enabled, only the facilitator-on-the-list guard can still stop the click |
| Setup.RequestBody | client/src/pages/Setup.jsx:37-41 | the JSON body; Setup.SentRequestPassesServerChecks and SentQuota state how the server takes it |
| Setup.CreateClick | client/src/pages/Setup.jsx:20-42 | `handleCreateSession` up to the fetch; Setup.SentRequestPassesServerChecks and EnabledLeavesFacilitatorCheck state its meaning |
| Voting.NoSessionNothingRemains | client/src/pages/Voting.jsx:22 | without a session the votes remaining are minus the caller's count |
| Voting.RemainingIffCanVote | client/src/pages/Voting.jsx:22 | the page shows a positive number of votes remaining exactly when the vote buttons let the caller cast (client/src/components/VoteButton.jsx:10) |
| Voting.VotesRemaining | client/src/pages/Voting.jsx:22 | `votesRemaining`; Voting.NoSessionNothingRemains and RemainingIffCanVote state its meaning |
| Voting.VotableItems | client/src/pages/Voting.jsx:25-52 | `getVotableItems(column)`; Voting.VotableItemsContents states its contents and order, and Voting.GetVotableItems computes it by the loops |
| Voting.GetVotableItems | client/src/pages/Voting.jsx:25-52 | the two push loops and the sort give the column's votable items |
| Voting.VotableItemsContents | client/src/pages/Voting.jsx:25-52 | an item is listed exactly when it is a group of the column or an ungrouped note of the column, with its vote count; the list is in descending order of votes |
| Voting.ListedIsItem | client/src/pages/Voting.jsx:29-47 | every group or ungrouped note of the column is among the items |
| Voting.ItemIsListed | client/src/pages/Voting.jsx:29-47 | every item is a group or ungrouped note of the column |
| Voting.MixedNeverListed | client/src/pages/Voting.jsx:20-29 | a group in column 'mixed' is listed in none of the three columns |
| Voting.CandidatesContents | client/src/pages/Voting.jsx:124 | the candidates are exactly all groups and the notes with a falsy group_id |
| Voting.Ranked | client/src/pages/Voting.jsx:130-131 | exactly the entries with votes, in descending order |
| Voting.FirstFive | client/src/pages/Voting.jsx:132 | at most five, a prefix of the ranking, and all of it when it has at most five |
| Voting.TopPanel | client/src/pages/Voting.jsx:124-132 | at most five entries, each with votes, in descending order |
| Voting.FirstFiveIsTop | client/src/pages/Voting.jsx:131-132 | an entry with more votes than a panel entry is on the panel |
| Voting.TopPanelIsTop | client/src/pages/Voting.jsx:124-132 | no entry left off the panel outvotes an entry on it |
| ActionItems.TopItems | client/src/pages/ActionItems.jsx:27-35 | one item per candidate, in descending order of votes |
| ActionItems.TopItemsContents | client/src/pages/ActionItems.jsx:27-35 | an item is listed exactly when it describes a candidate: its id, title (group title or first 50 characters of a note), votes and kind |
| ActionItems.DescribedIsEntry | client/src/pages/ActionItems.jsx:27-34 | a description of a candidate is among the mapped items |
| ActionItems.EntryIsDescribed | client/src/pages/ActionItems.jsx:27-34 | a mapped item describes a candidate |
| ActionItems.SidePanelIsTop | client/src/pages/ActionItems.jsx:191 | an item that outvotes one of the first five is shown before it |
| ActionItems.CreateActionClick | client/src/pages/ActionItems.jsx:37-44 | nothing is sent exactly when the trimmed title or the assignee is empty; otherwise the trimmed title, the assignee and the link ('' as null) |
| ActionItems.SentActionIsClean | client/src/pages/ActionItems.jsx:38-44 | a sent action has a non-empty trimmed title and an assignee, and is linked exactly when the link is truthy |
| ActionItems.ShortName | client/src/pages/ActionItems.jsx:166 | the name shown is a prefix of the email without '@', and all of it when it has no '@' (also line 106) |
| Text.Trim | client/src/pages/Setup.jsx:17 | the result is a slice of the input, cut only at whitespace, and neither starts nor ends with whitespace |
| Text.TrimIdempotent | client/src/pages/ActionItems.jsx:38-41 | trimming a trimmed text changes nothing |
| Text.Split | client/src/pages/Setup.jsx:16 | at least one piece, and no piece holds the separator |
| Text.SplitJoin | client/src/pages/Setup.jsx:16 | splitting lines joined by the separator gives the lines back |
| Text.JoinSplit | client/src/pages/Setup.jsx:16 | joining the pieces of a split gives the text back |
| Text.SplitHead | client/src/pages/ActionItems.jsx:106 | the first piece is a prefix of the text, and the whole text when the separator is absent |
| Text.LetterIsNaN | server/server.js:64 | a word starting with a letter reads as NaN under `Number` |
| Text.ToNumber | server/server.js:64 | `Number` of a string, NaN as none; Text.LetterIsNaN and Schema.ConvertedTextAgrees state its meaning |
| Text.Prefix | client/src/pages/Voting.jsx:127 | at most n characters, a prefix, and the whole text when it is short enough |
| Ranking.SortDesc | client/src/pages/Voting.jsx:51 | a permutation of the input in non-increasing order of the key |
| Ranking.SortDescStable | client/src/pages/Voting.jsx:51 | items with equal keys keep their relative order |
| Ranking.SortDescOfSorted | client/src/pages/ActionItems.jsx:35 | a list already in order is left as it is |

## Left out

- **Row order.** `participantQueries.getBySession` orders by `role DESC, joined_at ASC`, but the roster is modelled in insertion order. `voteQueries.getBySession` (server/db.js:203-205) has no ORDER BY, so SQLite may return votes in any order; the vote list is modelled in insertion order. The note, group and action queries order by created_at, which is insertion order under a monotone clock.
- **Ids, clocks and tokens.**
  - `nanoid` and `Date.now()` are parameters.
  - JWT signing, verification and magic-link URLs are not modelled; the verifier is a function from a token to its claims.
  - `authMiddleware` is reduced to that caller identity.
- **Transport.** socket.io rooms, connections, disconnects and the HTTP plumbing (status codes are kept, headers and CORS are not) are modelled only as the recipient of each emission.
- **Driver errors.** A refused statement gives the handler's generic error. Only the vote insert's refusal carries a code, because only the vote handler reads one: better-sqlite3 reports SQLite's extended result code (`SQLITE_CONSTRAINT_CHECK`, `_UNIQUE`, `_FOREIGNKEY`). Which code SQLite reports when several constraints fail at once is taken to be CHECK, then UNIQUE, then FOREIGN KEY; every one of them gives "Failed to cast vote".
- **JSON bodies.** Request fields are strings, lists of strings, numbers, booleans, null or absent. JSON numbers are exact reals, not doubles.
- Engine.NoteEditStep, Engine.NoteDeleteStep, Engine.NoteMoveStep: here the model follows the intent, not the code. `noteQueries` (server/db.js:149-166) defines only `create`, `getBySession`, `updateGroup` and `delete`. As written, note:edit, note:delete and note:move therefore throw at `noteQueries.getById.get` (server/socket-handlers.js:97, 116 and 155) before any write. The caller gets "Failed to edit note", "Failed to delete note" or "Failed to move note", and nothing changes. The model instead gives the four missing queries their evident meaning, in Queries.NoteById, Queries.CountInGroup, Queries.SetNoteText and Queries.SetNoteColumn, and in Store.Database.GetNoteById, CountByGroup, UpdateText and UpdateNoteColumn, and proves the handlers' intended behaviour.
- **Socket payloads.** The `column` of note:move is missing, null or a string, and the handler tells the three apart. Every other payload field is modelled as present, with the type its handler expects: a string, a list of ids for group:create, or a string or null for `groupId` and `linkedTo`. A missing `groupId` is modelled as null, because how better-sqlite3 binds `undefined` is not modelled. Mistyped payload fields are not modelled.
- Server.CreateRequest: a quota that is a JSON array or object is not modelled.
- **Numerals.** `Text.ToNumber` reads decimal notation only (a sign, digits, one point). Exponents, `Infinity` and `0x`/`0o`/`0b` prefixes read as NaN here, although JavaScript reads them as numbers. `Schema.Affinity` uses the same reading for SQLite's numeric affinity, which trims only ASCII whitespace.
- **Reserved keys.** The `voteCounts` object is a map, so keys such as `__proto__` behave like any other.
- **Handler preconditions.** A socket handler called before `join` would throw on `socket.data`. The model requires an identity instead.
- **ExportedAction.createdAt** holds the raw timestamp; `toISOString` formatting and the export `date` field are not modelled.
- **Client wiring.** `useSocket` wiring, the `setAuth`, `clearAuth`, `setSocket` and `setDisconnected` reducers, and all rendering are left out.
- **Missing reducers.** The client has no reducers for note:edited, note:deleted and group:deleted. A client copy is therefore proved in step only for the events it handles.
- Projector.SetSessionState: requires a session row in the snapshot; the reducer as written throws on `session.current_phase` otherwise.
- Projector.NoteMovedKeepsMirror: covers only the regroup; the client's `moveNote` ignores a column in note:moved, so after a move with a column the client's note column differs from the server's.
- **Text.Prefix** counts Unicode characters where `substring` counts UTF-16 code units. It also models `text?.substring` only for notes, which always have a text.
- **Reveal and export buttons.** The brainstorm "reveal" button and the export download of `FacilitatorControls.jsx` are not part of this model; export is modelled on the server side only.

## Findings

| source | as written | input that shows it | evidently intended | confidence | as-written member | corrected member |
|---|---|---|---|---|---|---|
| server/socket-handlers.js:281 | the catch block compares `error.code` with 'SQLITE_CONSTRAINT', but better-sqlite3 reports the extended code, 'SQLITE_CONSTRAINT_UNIQUE' for the UNIQUE key; a duplicate vote is answered "Failed to cast vote" | a user under the quota casts a second vote on a note they already voted for | the duplicate is answered "Already voted for this item" | not executed; rests on the driver reporting extended codes | EngineRules.AlreadyVotedNeverSent | EngineRules.CheckedVoteCastDuplicate |
| server/server.js:64 | `!votesPerPerson \|\| votesPerPerson < 1` lets a fractional quota through; it is stored as a REAL and the `>=` check at socket-handlers.js:270 admits one vote more than the quota | quota 1.5; a user with 1 vote casts a second and holds 2 | the quota is a whole number, and no user holds more votes than it (Engine.WholeQuotaRespected) | not executed | EngineRules.FractionalQuotaOvershoots | Server.CheckedCreateIsAtomic |
| server/server.js:64 | a non-numeric string is let through (NaN is not below 1); the INTEGER column keeps it as text, and `count >= "abc"` is always false, so there is no vote limit | quota "abc" | the quota is a whole number, and no user holds more votes than it (Engine.WholeQuotaRespected) | not executed | EngineRules.TextQuotaNeverLimits | Server.CheckedCreateIsAtomic |
| server/server.js:80-82 | participants are inserted one by one with no transaction; a repeated email makes a later insert throw after the session row and the earlier participants are stored (catch at lines 91-94 answers 500) | emails ["b", "b", "a"], facilitator "a", quota 3 | creation is atomic and the new session has exactly one facilitator | not executed | Server.RepeatedEmailLeavesPartialSession | Server.CheckedCreateIsAtomic |
