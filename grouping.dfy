/**
 * The drop handler of the grouping board (client/src/pages/Grouping.jsx): which
 * intent, if any, dropping a dragged note produces.
 */
module Grouping {
  import opened Wrappers
  import opened Schema
  import opened Queries
  import opened Protocol

  const GroupPrefix: string := "group-"

  predicate StartsWith(s: string, prefix: string) {
    |prefix| <= |s| && s[..|prefix|] == prefix
  }

  /**
   * `handleDragEnd`, for the dragged note `activeId` and the drop target `overId`
   * over the client's `notes`. Dropping on another note of the same column asks
   * for a group of the two; a drop target whose `over` id starts with
   * `group-` asks to move the note to the group named by the rest of the id. When the dragged id
   * is not a note `draggedNote.column` throws, and nothing is emitted.
   */
  function DragIntent(notes: seq<Note>, activeId: string, overId: Option<string>): Option<Intent> {
    if overId.None? then None
    else
      var targetId := overId.value;
      var target := NoteById(notes, targetId);
      if target.Some? && activeId != targetId then
        var dragged := NoteById(notes, activeId);
        if dragged.Some? && dragged.value.column == target.value.column then
          Some(GroupCreate(dragged.value.column, [activeId, targetId]))
        else None
      else if StartsWith(targetId, GroupPrefix) then
        Some(NoteMove(activeId, Some(targetId[|GroupPrefix|..]), Missing))
      else None
  }

  /** A drop outside every target emits nothing. */
  lemma NoTargetNoIntent(notes: seq<Note>, activeId: string)
    ensures DragIntent(notes, activeId, None).None?
  {
  }

  /**
   * A group is requested exactly for a drop of a note on a different note of
   * the same column, with the dragged note's column and the two ids in order.
   */
  lemma GroupCreateOnSameColumn(notes: seq<Note>, activeId: string, targetId: string)
    ensures var r := DragIntent(notes, activeId, Some(targetId));
      (r.Some? && r.value.GroupCreate?) <==>
        (NoteById(notes, targetId).Some? && NoteById(notes, activeId).Some? && activeId != targetId &&
         NoteById(notes, activeId).value.column == NoteById(notes, targetId).value.column)
    ensures var r := DragIntent(notes, activeId, Some(targetId));
      r.Some? && r.value.GroupCreate? ==>
        && r.value.noteIds == [activeId, targetId]
        && |r.value.noteIds| == 2 && r.value.noteIds[0] != r.value.noteIds[1]
        && r.value.column == NoteById(notes, activeId).value.column
  {
  }

  /** A drop on a note of another column emits nothing. */
  lemma OtherColumnNoIntent(notes: seq<Note>, activeId: string, targetId: string)
    requires NoteById(notes, targetId).Some? && NoteById(notes, activeId).Some? && activeId != targetId
    requires NoteById(notes, activeId).value.column != NoteById(notes, targetId).value.column
    ensures DragIntent(notes, activeId, Some(targetId)).None?
  {
  }

  /** When every note has a note column the requested group is never `mixed`. */
  lemma NeverMixed(notes: seq<Note>, activeId: string, overId: Option<string>)
    requires forall n :: n in notes ==> IsNoteColumn(n.column)
    ensures var r := DragIntent(notes, activeId, overId);
      r.Some? && r.value.GroupCreate? ==> IsNoteColumn(r.value.column) && r.value.column != "mixed"
  {
  }

  /**
   * A drop whose `over` id starts with `group-` moves the note into the group
   * named by the id with its prefix stripped, and asks for no column.
   */
  lemma DropOnGroupMoves(notes: seq<Note>, activeId: string, groupId: string)
    requires NoteById(notes, GroupPrefix + groupId).None?
    ensures DragIntent(notes, activeId, Some(GroupPrefix + groupId)) == Some(NoteMove(activeId, Some(groupId), Missing))
  {
    var id := GroupPrefix + groupId;
    assert id[..|GroupPrefix|] == GroupPrefix && id[|GroupPrefix|..] == groupId;
  }
}
