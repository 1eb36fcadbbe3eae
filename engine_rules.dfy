/**
 * The rules the socket handlers enforce, stated over their step functions:
 * group clean-up, author-only and facilitator-only operations, the vote quota
 * and uniqueness, and what each successful handler writes.
 */
module EngineRules {
  import opened Wrappers
  import opened Seqs
  import opened Schema
  import opened Queries
  import opened Protocol
  import opened Engine
  import opened Text

  // ------------------------------------------------------------ group clean-up

  /** Detaching keeps every note's position and every field but `group_id`. */
  lemma DetachKeepsNotes(t: Tables, sid: string, g: string)
    ensures |Detach(t, sid, g).tables.notes| == |t.notes|
    ensures forall i :: 0 <= i < |t.notes| ==>
      Detach(t, sid, g).tables.notes[i].(groupId := t.notes[i].groupId) == t.notes[i]
  {
  }

  /** After detaching, no note of the session is left in a group that had at most one note. */
  lemma DetachEmptiesGroup(t: Tables, sid: string, g: string)
    requires CountInGroup(t.notes, g) == 1
    ensures forall n :: n in Detach(t, sid, g).tables.notes && n.sessionId == sid ==> n.groupId != Some(g)
  {
    var r := Detach(t, sid, g).tables;
    var remaining := NotesInGroup(NotesOf(t.notes, sid), g);
    SessionMembersLe(t.notes, sid, g);
    if |remaining| == 1 {
      var x := remaining[0];
      assert remaining == [x];
      assert r.notes == SetNoteGroup(t.notes, x.id, None);
      forall n | n in r.notes && n.sessionId == sid ensures n.groupId != Some(g) {
        var i :| 0 <= i < |r.notes| && r.notes[i] == n;
        var m := t.notes[i];
        assert n.groupId == (if m.id == x.id then None else m.groupId);
        assert n.sessionId == m.sessionId by {
          assert n.(groupId := m.groupId) == m;
        }
        assert m in t.notes;
        assert m.groupId == Some(g) && m.sessionId == sid ==> m in remaining;
      }
    } else {
      assert r.notes == t.notes;
      forall n | n in r.notes && n.sessionId == sid ensures n.groupId != Some(g) {
        assert n.groupId == Some(g) ==> n in remaining;
      }
    }
  }

  /**
   * What deleting group `g` leaves: the group is gone, only `group_id`s
   * changed, no note of the session is left in it, and the room is told about
   * the one detached note (if any) before it is told the group is gone.
   */
  ghost predicate GroupSettled(t: Tables, sid: string, g: string, r: Step) {
    && (forall x :: x in r.tables.groups <==> x in t.groups && x.id != g)
    && |r.tables.notes| == |t.notes|
    && (forall i :: 0 <= i < |t.notes| ==> r.tables.notes[i].(groupId := t.notes[i].groupId) == t.notes[i])
    && (forall n :: n in r.tables.notes && n.sessionId == sid ==> n.groupId != Some(g))
    && (|| r.out == [Emission(Room(sid), GroupDeleted(g))]
        || exists n :: n in t.notes && n.sessionId == sid && n.groupId == Some(g) &&
             r.out == [Emission(Room(sid), NoteMoved(n.id, None, Missing)), Emission(Room(sid), GroupDeleted(g))])
  }

  /** After a note leaves group `g`, either the group keeps at least two notes and nothing changes, or it is settled. */
  lemma SettleOutcome(t: Tables, sid: string, g: string)
    ensures CountInGroup(t.notes, g) >= 2 ==> Settle(t, sid, g) == Step(t, [])
    ensures CountInGroup(t.notes, g) < 2 ==> GroupSettled(t, sid, g, Settle(t, sid, g))
  {
    var count := CountInGroup(t.notes, g);
    if count == 1 {
      SettleOne(t, sid, g);
    } else if count == 0 {
      SettleNone(t, sid, g);
    }
  }

  lemma SettleOne(t: Tables, sid: string, g: string)
    requires CountInGroup(t.notes, g) == 1
    ensures GroupSettled(t, sid, g, Settle(t, sid, g))
  {
    DetachKeepsNotes(t, sid, g);
    DetachEmptiesGroup(t, sid, g);
    var r := Settle(t, sid, g);
    var d := Detach(t, sid, g);
    var gone := Emission(Room(sid), GroupDeleted(g));
    assert r == Step(d.tables.(groups := DeleteGroup(t.groups, g)), d.out + [gone]);
    var remaining := NotesInGroup(NotesOf(t.notes, sid), g);
    if |remaining| == 1 {
      var n := remaining[0];
      assert n in remaining;
      assert r.out == [Emission(Room(sid), NoteMoved(n.id, None, Missing)), gone];
    } else {
      assert r.out == [gone];
    }
  }

  lemma SettleNone(t: Tables, sid: string, g: string)
    requires CountInGroup(t.notes, g) == 0
    ensures GroupSettled(t, sid, g, Settle(t, sid, g))
  {
    assert Settle(t, sid, g).tables.notes == t.notes;
    assert [] + [Emission(Room(sid), GroupDeleted(g))] == [Emission(Room(sid), GroupDeleted(g))];
  }

  /** The conditional clean-up keeps every note's position and every field but `group_id`. */
  lemma SettleIfKeepsNotes(t: Tables, sid: string, left: Option<string>, leaves: bool)
    ensures |SettleIf(t, sid, left, leaves).tables.notes| == |t.notes|
    ensures forall i :: 0 <= i < |t.notes| ==>
      SettleIf(t, sid, left, leaves).tables.notes[i].(groupId := t.notes[i].groupId) == t.notes[i]
  {
    if Truthy(left) && leaves {
      SettleOutcome(t, sid, left.value);
      if CountInGroup(t.notes, left.value) < 2 {
        assert GroupSettled(t, sid, left.value, Settle(t, sid, left.value));
      }
    }
  }

  // -------------------------------------------------------------- note:move

  /** A note that stays in its group, or had none, never causes a group to be deleted or changed. */
  lemma NoteMoveStayKeepsGroups(t: Tables, who: Identity, noteId: string, groupId: Option<string>, column: Field)
    requires FormerGroup(t.notes, noteId) == groupId || !Truthy(FormerGroup(t.notes, noteId))
    ensures NoteMoveStep(t, who, noteId, groupId, column).tables.groups == t.groups
  {
  }

  /** The row writes of `note:move` change a note's column only when one is supplied, and only on that note. */
  lemma MoveNoteRowColumns(t: Tables, noteId: string, groupId: Option<string>, column: Field)
    ensures var w := MoveNoteRow(t, noteId, groupId, column).tables;
      && |w.notes| == |t.notes|
      && forall i :: 0 <= i < |t.notes| && w.notes[i].column != t.notes[i].column ==>
           column.Given? && t.notes[i].id == noteId && w.notes[i].column == column.value
  {
    var t1 := SetNoteGroup(t.notes, noteId, groupId);
    assert forall i :: 0 <= i < |t.notes| ==> t1[i].column == t.notes[i].column by {
      forall i | 0 <= i < |t.notes| ensures t1[i].column == t.notes[i].column {
        assert t1[i].(groupId := t.notes[i].groupId) == t.notes[i];
      }
    }
  }

  /** The clean-up after a move changes no column. */
  lemma SettleIfKeepsColumns(t: Tables, sid: string, left: Option<string>, leaves: bool)
    ensures var r := SettleIf(t, sid, left, leaves).tables;
      && |r.notes| == |t.notes|
      && forall i :: 0 <= i < |t.notes| ==> r.notes[i].column == t.notes[i].column
  {
    var r := SettleIf(t, sid, left, leaves).tables;
    SettleIfKeepsNotes(t, sid, left, leaves);
    forall i | 0 <= i < |t.notes| ensures r.notes[i].column == t.notes[i].column {
      assert r.notes[i].(groupId := t.notes[i].groupId) == t.notes[i];
    }
  }

  /** A note's column changes only when a column is supplied, and then only to that column on that note. */
  lemma NoteMoveColumnOnlyWhenSupplied(t: Tables, who: Identity, noteId: string, groupId: Option<string>, column: Field)
    ensures var r := NoteMoveStep(t, who, noteId, groupId, column).tables;
      && |r.notes| == |t.notes|
      && forall i :: 0 <= i < |t.notes| && r.notes[i].column != t.notes[i].column ==>
           column.Given? && t.notes[i].id == noteId && r.notes[i].column == column.value
  {
    var w := MoveNoteRow(t, noteId, groupId, column);
    var left := FormerGroup(t.notes, noteId);
    MoveNoteRowColumns(t, noteId, groupId, column);
    SettleIfKeepsColumns(w.tables, who.sessionId, left, left != groupId);
  }

  /** With distinct note ids, a supplied note column that differs from the note's is written by the row writes. */
  lemma MoveNoteRowWritesColumn(t: Tables, noteId: string, groupId: Option<string>, c: string)
    requires DistinctBy(NoteId, t.notes)
    requires NoteById(t.notes, noteId).Some? && IsNoteColumn(c)
    ensures var w := MoveNoteRow(t, noteId, groupId, Given(c));
      && w.ok && |w.tables.notes| == |t.notes|
      && forall i :: 0 <= i < |t.notes| && t.notes[i].id == noteId ==> w.tables.notes[i].column == c
  {
    var note := NoteById(t.notes, noteId).value;
    forall i | 0 <= i < |t.notes| && t.notes[i].id == noteId ensures t.notes[i] == note {
      var j :| 0 <= j < |t.notes| && t.notes[j] == note;
      assert !(i < j) && !(j < i);
    }
    var t1 := SetNoteGroup(t.notes, noteId, groupId);
    forall i | 0 <= i < |t.notes| && t.notes[i].id == noteId ensures t1[i].column == note.column {
      assert t1[i].(groupId := t.notes[i].groupId) == t.notes[i];
    }
  }

  /** With distinct note ids, a supplied note column that differs from the note's is written to it. */
  lemma NoteMoveWritesColumn(t: Tables, who: Identity, noteId: string, groupId: Option<string>, c: string)
    requires DistinctBy(NoteId, t.notes)
    requires NoteById(t.notes, noteId).Some? && IsNoteColumn(c)
    ensures var r := NoteMoveStep(t, who, noteId, groupId, Given(c)).tables;
      forall i :: 0 <= i < |t.notes| && t.notes[i].id == noteId ==> r.notes[i].column == c
  {
    var w := MoveNoteRow(t, noteId, groupId, Given(c));
    var left := FormerGroup(t.notes, noteId);
    MoveNoteRowWritesColumn(t, noteId, groupId, c);
    SettleIfKeepsColumns(w.tables, who.sessionId, left, left != groupId);
  }

  /**
   * A `null` column on an existing note always differs from the note's, so it
   * is written after the group and NOT NULL refuses it: the group write stays,
   * the caller alone is told "Failed to move note", and there is neither
   * `note:moved` nor clean-up of the group the note left.
   */
  lemma NullColumnRefused(t: Tables, who: Identity, noteId: string, groupId: Option<string>)
    requires NoteById(t.notes, noteId).Some?
    ensures NoteMoveStep(t, who, noteId, groupId, Null)
         == Refuse(t.(notes := SetNoteGroup(t.notes, noteId, groupId)), "Failed to move note")
  {
  }

  // ------------------------------------------------------ author-only edits

  /** Edit and delete are refused, with nothing changed, unless the caller wrote the note. */
  lemma NonAuthorRefused(t: Tables, who: Identity, noteId: string, text: string)
    requires !IsAuthor(t.notes, noteId, who.email)
    ensures NoteEditStep(t, who, noteId, text) == Refuse(t, "Can only edit your own notes")
    ensures NoteDeleteStep(t, who, noteId) == Refuse(t, "Can only delete your own notes")
  {
  }

  /** A permitted edit changes that note's text and nothing else in the store. */
  lemma AuthorEditsOnlyText(t: Tables, who: Identity, noteId: string, text: string)
    requires IsAuthor(t.notes, noteId, who.email)
    ensures var r := NoteEditStep(t, who, noteId, text).tables;
      && r == t.(notes := r.notes)
      && |r.notes| == |t.notes|
      && forall i :: 0 <= i < |t.notes| ==>
           r.notes[i].(text := t.notes[i].text) == t.notes[i] &&
           r.notes[i].text == if t.notes[i].id == noteId then text else t.notes[i].text
  {
  }

  // ------------------------------------------------------------------- groups

  /** Appending a row whose id is new makes it the row found under that id. */
  lemma {:induction false} GroupByIdAppend(groups: seq<Group>, row: Group)
    requires GroupById(groups, row.id).None?
    ensures GroupById(groups + [row], row.id) == Some(row)
  {
    if groups != [] {
      assert (groups + [row])[1..] == groups[1..] + [row];
      GroupByIdAppend(groups[1..], row);
    } else {
      assert [row][0] == row;
    }
  }

  /**
   * `group:create` checks neither how many notes it is given nor what the
   * notes leave behind: taking one note out of a two-note group makes a group
   * of one and leaves a group of one, both kept.
   */
  lemma GroupCreateLeavesSingletons()
    ensures var t := PairInGroup();
      var r := GroupCreateStep(t, Identity("s", "f", Facilitator), "h", "start", ["a"], 1).tables;
      && ValidTables(t) && CountInGroup(t.notes, "g") == 2
      && GroupById(r.groups, "g").Some? && GroupById(r.groups, "h").Some?
      && CountInGroup(r.notes, "g") == 1 && CountInGroup(r.notes, "h") == 1
  {
    var t := PairInGroup();
    PairInGroupValid();
    PairRegrouped();
    var r := GroupCreateStep(t, Identity("s", "f", Facilitator), "h", "start", ["a"], 1).tables;
    CountsOfTwo(t.notes[0], t.notes[1], "g", "g");
    CountsOfTwo(r.notes[0], r.notes[1], "h", "g");
    assert GroupById(r.groups, "g").Some? by { assert r.groups[0].id == "g"; }
    assert GroupById(r.groups, "h").Some? by { assert r.groups[1].id == "h"; }
  }

  /** The store after the group `h` is created from note `a` of `PairInGroup()`. */
  lemma PairRegrouped()
    ensures var t := PairInGroup();
      var r := GroupCreateStep(t, Identity("s", "f", Facilitator), "h", "start", ["a"], 1).tables;
      && r.groups == [Group("g", "s", "", "start", 0), Group("h", "s", "", "start", 1)]
      && r.notes == [t.notes[0].(groupId := Some("h")), t.notes[1]]
      && t.notes == [t.notes[0], t.notes[1]]
  {
    var t := PairInGroup();
    var ns := AssignGroup(t.notes, ["a"], "h");
    assert |ns| == 2;
    assert ns[0] == t.notes[0].(groupId := Some("h"));
    assert ns[1] == t.notes[1];
  }

  /** A session with two notes in one group. */
  function PairInGroup(): Tables {
    EmptyTables.(
      sessions := map["s" := Session("s", "f", Num(3.0), InitialPhase, 0, 0)],
      notes := [Note("a", "s", "f", "start", "x", Some("g"), 0), Note("b", "s", "f", "start", "y", Some("g"), 0)],
      groups := [Group("g", "s", "", "start", 0)])
  }

  lemma PairInGroupValid()
    ensures ValidTables(PairInGroup())
  {
    var t := PairInGroup();
    assert DistinctBy(NoteId, t.notes) by {
      assert t.notes[0].id != t.notes[1].id;
    }
  }

  /** How many of two notes are in each of two groups. */
  lemma CountsOfTwo(n0: Note, n1: Note, g0: string, g1: string)
    requires n0.groupId == Some(g0) && n1.groupId == Some(g1)
    ensures g0 != g1 ==> CountInGroup([n0, n1], g0) == 1 && CountInGroup([n0, n1], g1) == 1
    ensures g0 == g1 ==> CountInGroup([n0, n1], g0) == 2
  {
    assert [n0, n1][1..] == [n1] && [n1][1..] == [];
    assert NotesInGroup([n0, n1], g0) == [n0] + NotesInGroup([n1], g0);
    assert NotesInGroup([n0, n1], g1) == (if g0 == g1 then [n0] else []) + NotesInGroup([n1], g1);
    assert NotesInGroup([n1], g1) == [n1];
    assert g0 != g1 ==> NotesInGroup([n1], g0) == [];
  }

  /** A created group is untitled, in the requested column, and holds exactly the listed notes it did not hold before. */
  lemma GroupCreateAssigns(t: Tables, who: Identity, groupId: string, column: string, noteIds: seq<string>, now: int)
    requires CanInsertGroup(t, NewGroup(who, groupId, column, now))
    ensures var r := GroupCreateStep(t, who, groupId, column, noteIds, now).tables;
      && GroupById(r.groups, groupId) == Some(Group(groupId, who.sessionId, "", column, now))
      && |r.notes| == |t.notes|
      && forall i :: 0 <= i < |t.notes| ==>
           r.notes[i].(groupId := t.notes[i].groupId) == t.notes[i] &&
           r.notes[i].groupId == if t.notes[i].id in noteIds then Some(groupId) else t.notes[i].groupId
  {
    GroupByIdAppend(t.groups, NewGroup(who, groupId, column, now));
  }

  // -------------------------------------------------------------------- votes

  /** `vote:cast` keeps every user's latest vote admitted by the quota check. */
  lemma VoteCastKeepsQuota(t: Tables, who: Identity, targetId: string, targetType: string, now: int)
    requires QuotaRespected(t.sessions, t.votes)
    ensures var r := VoteCastStep(t, who, targetId, targetType, now).tables;
      QuotaRespected(r.sessions, r.votes)
  {
    var sid := who.sessionId;
    if sid in t.sessions && !AtLeast(CountByUser(t.votes, sid, who.email), t.sessions[sid].votesPerPerson)
       && CanInsertVote(t, sid, who.email, targetId, targetType) {
      CastKeepsQuota(t.sessions, t.votes, NewVote(t, sid, who.email, targetId, targetType, now));
    }
  }

  /** At or over the quota, as JavaScript compares them, a cast is refused and nothing changes. */
  lemma VoteCastOverQuota(t: Tables, who: Identity, targetId: string, targetType: string, now: int)
    requires who.sessionId in t.sessions
    requires AtLeast(CountByUser(t.votes, who.sessionId, who.email), t.sessions[who.sessionId].votesPerPerson)
    ensures VoteCastStep(t, who, targetId, targetType, now) == Refuse(t, "Vote limit reached")
  {
  }

  /**
   * A second vote by the same user on the same target is refused and nothing
   * changes; past the quota check the caller is told "Failed to cast vote",
   * since the driver's code for the UNIQUE key is not the one the handler tests.
   */
  lemma VoteCastDuplicate(t: Tables, who: Identity, targetId: string, targetType: string, now: int)
    requires HasVote(t.votes, who.sessionId, who.email, targetId)
    ensures VoteCastStep(t, who, targetId, targetType, now).tables == t
    ensures who.sessionId in t.sessions && !AtLeast(CountByUser(t.votes, who.sessionId, who.email), t.sessions[who.sessionId].votesPerPerson) ==>
              VoteCastStep(t, who, targetId, targetType, now) == Refuse(t, "Failed to cast vote")
  {
  }

  /** As written, `vote:cast` never sends "Already voted for this item". */
  lemma AlreadyVotedNeverSent(t: Tables, who: Identity, targetId: string, targetType: string, now: int)
    ensures Emission(Caller, Error("Already voted for this item")) !in VoteCastStep(t, who, targetId, targetType, now).out
  {
    var err := VoteInsertError(t, who.sessionId, who.email, targetId, targetType);
    assert err.Some? ==> err.value != ConstraintCode;
  }

  /**
   * With the intended catch block a duplicate vote past the quota check is
   * answered "Already voted for this item", every other refused insert "Failed
   * to cast vote", and the store changes exactly as it does as written.
   */
  lemma CheckedVoteCastDuplicate(t: Tables, who: Identity, targetId: string, targetType: string, now: int)
    ensures CheckedVoteCastStep(t, who, targetId, targetType, now).tables == VoteCastStep(t, who, targetId, targetType, now).tables
    ensures var sid := who.sessionId;
      sid in t.sessions && !AtLeast(CountByUser(t.votes, sid, who.email), t.sessions[sid].votesPerPerson) ==>
        && (IsTargetType(targetType) && HasVote(t.votes, sid, who.email, targetId) ==>
              CheckedVoteCastStep(t, who, targetId, targetType, now) == Refuse(t, "Already voted for this item"))
        && (!IsTargetType(targetType) ==>
              CheckedVoteCastStep(t, who, targetId, targetType, now) == Refuse(t, "Failed to cast vote"))
  {
  }

  /** A successful cast adds exactly one vote, the caller's, on that target; other users' counts stay. */
  lemma VoteCastAddsOne(t: Tables, who: Identity, targetId: string, targetType: string, now: int)
    requires who.sessionId in t.sessions
    requires !AtLeast(CountByUser(t.votes, who.sessionId, who.email), t.sessions[who.sessionId].votesPerPerson)
    requires CanInsertVote(t, who.sessionId, who.email, targetId, targetType)
    ensures var r := VoteCastStep(t, who, targetId, targetType, now).tables;
      && HasVote(r.votes, who.sessionId, who.email, targetId)
      && CountByUser(r.votes, who.sessionId, who.email) == CountByUser(t.votes, who.sessionId, who.email) + 1
      && forall sid, email :: sid != who.sessionId || email != who.email ==>
           CountByUser(r.votes, sid, email) == CountByUser(t.votes, sid, email)
  {
    var row := NewVote(t, who.sessionId, who.email, targetId, targetType, now);
    var r := VoteCastStep(t, who, targetId, targetType, now).tables;
    assert row in r.votes && IsVoteOf(row, who.sessionId, who.email, targetId);
    FilterSnoc(VoteByUser(who.sessionId, who.email), t.votes, row);
    forall sid, email | sid != who.sessionId || email != who.email
      ensures CountByUser(r.votes, sid, email) == CountByUser(t.votes, sid, email)
    {
      FilterSnoc(VoteByUser(sid, email), t.votes, row);
    }
  }

  /**
   * A fractional quota admits one vote more than it: a caller holding the
   * quota's whole part gets another vote through, and ends above the quota.
   */
  lemma FractionalQuotaOvershoots(t: Tables, who: Identity, targetId: string, targetType: string, now: int)
    requires who.sessionId in t.sessions && t.sessions[who.sessionId].votesPerPerson.Num?
    requires var x := t.sessions[who.sessionId].votesPerPerson.x;
      x != x.Floor as real && CountByUser(t.votes, who.sessionId, who.email) == x.Floor
    requires CanInsertVote(t, who.sessionId, who.email, targetId, targetType)
    ensures CountByUser(VoteCastStep(t, who, targetId, targetType, now).tables.votes, who.sessionId, who.email) as real
              > t.sessions[who.sessionId].votesPerPerson.x
  {
    VoteCastAddsOne(t, who, targetId, targetType, now);
  }

  /** A quota stored as text that is not a number never refuses a vote: each new target adds one. */
  lemma TextQuotaNeverLimits(t: Tables, who: Identity, targetId: string, targetType: string, now: int)
    requires who.sessionId in t.sessions && t.sessions[who.sessionId].votesPerPerson.Txt?
    requires ToNumber(t.sessions[who.sessionId].votesPerPerson.s).None?
    ensures VoteCastStep(t, who, targetId, targetType, now) != Refuse(t, "Vote limit reached")
    ensures CanInsertVote(t, who.sessionId, who.email, targetId, targetType) ==>
              CountByUser(VoteCastStep(t, who, targetId, targetType, now).tables.votes, who.sessionId, who.email)
                == CountByUser(t.votes, who.sessionId, who.email) + 1
  {
    if CanInsertVote(t, who.sessionId, who.email, targetId, targetType) {
      VoteCastAddsOne(t, who, targetId, targetType, now);
    }
  }

  /** Removal takes away the caller's vote on that target and no other vote; without one it changes nothing. */
  lemma VoteRemoveExact(t: Tables, who: Identity, targetId: string)
    ensures var r := VoteRemoveStep(t, who, targetId).tables;
      && r == t.(votes := r.votes)
      && !HasVote(r.votes, who.sessionId, who.email, targetId)
      && (forall v :: v in r.votes <==> v in t.votes && !IsVoteOf(v, who.sessionId, who.email, targetId))
      && (!HasVote(t.votes, who.sessionId, who.email, targetId) ==> r == t)
  {
    if !HasVote(t.votes, who.sessionId, who.email, targetId) {
      RemoveAbsentVote(t.votes, who.sessionId, who.email, targetId);
    }
  }

  /** Withdrawing a vote keeps every user's latest vote admitted by the quota check. */
  lemma VoteRemoveKeepsQuota(t: Tables, who: Identity, targetId: string)
    requires QuotaRespected(t.sessions, t.votes)
    ensures var r := VoteRemoveStep(t, who, targetId).tables;
      QuotaRespected(r.sessions, r.votes)
  {
    RemoveKeepsQuota(t.sessions, t.votes, who.sessionId, who.email, targetId);
  }

  // ------------------------------------------------------ facilitator-only acts

  /** Only the facilitator may create action items or change the phase; anyone else changes nothing. */
  lemma NonFacilitatorRefused(t: Tables, who: Identity, actionId: string, title: string, assignee: string,
                              linkedTo: Option<string>, phase: string, now: int)
    requires who.role != Facilitator
    ensures ActionCreateStep(t, who, actionId, title, assignee, linkedTo, now)
              == Refuse(t, "Only facilitator can create action items")
    ensures PhaseChangeStep(t, who, phase, now) == Refuse(t, "Only facilitator can change phase")
  {
  }

  /** The facilitator's phase is stored as given, whatever it is; no other session changes. */
  lemma PhaseChangeStoresAnyPhase(t: Tables, who: Identity, phase: string, now: int)
    requires who.role == Facilitator && who.sessionId in t.sessions
    ensures var r := PhaseChangeStep(t, who, phase, now);
      && r.tables.sessions[who.sessionId].currentPhase == phase
      && r.tables.sessions.Keys == t.sessions.Keys
      && (forall k :: k in t.sessions && k != who.sessionId ==> r.tables.sessions[k] == t.sessions[k])
      && r.out == [Emission(Room(who.sessionId), PhaseChanged(phase))]
  {
  }

  // --------------------------------------------------------------------- join

  /** Joining again only refreshes the join time. */
  lemma JoinAgain(t: Tables, who: Identity, first: int, again: int)
    ensures JoinStep(JoinStep(t, who, first).tables, who, again).tables == JoinStep(t, who, again).tables
  {
    MarkJoinedAgain(t.participants, who.sessionId, who.email, first, again);
  }

  /** A join marks the caller joined, sends the roster to the room and the snapshot to the caller alone. */
  lemma JoinAudience(t: Tables, who: Identity, now: int)
    ensures var r := JoinStep(t, who, now);
      && |r.out| == 2
      && r.out[0] == Emission(Room(who.sessionId), ParticipantsUpdated(ParticipantsOf(r.tables.participants, who.sessionId)))
      && r.out[1].to == Caller && r.out[1].event == SessionState(SnapshotOf(r.tables, who.sessionId))
      && forall p :: p in r.tables.participants && p.sessionId == who.sessionId && p.email == who.email ==>
           p.status == Joined && p.joinedAt == Some(now)
  {
    var r := JoinStep(t, who, now);
    forall p | p in r.tables.participants && p.sessionId == who.sessionId && p.email == who.email
      ensures p.status == Joined && p.joinedAt == Some(now)
    {
      var i :| 0 <= i < |r.tables.participants| && r.tables.participants[i] == p;
      assert r.tables.participants[i].(status := t.participants[i].status, joinedAt := t.participants[i].joinedAt) == t.participants[i];
    }
  }
}
