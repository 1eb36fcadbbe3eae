/**
 * The facilitator's "Next Phase" control (client/src/components/FacilitatorControls.jsx):
 * the successor map and the intent a click produces.
 */
module PhaseControls {
  import opened Wrappers
  import opened Protocol

  /** The phases in the order a session goes through them. */
  const Phases: seq<string> := ["waiting", "brainstorm", "grouping", "voting", "actions", "complete"]

  /** `nextPhaseMap[phase]`; `undefined` for a phase the map does not list. */
  function NextPhase(phase: string): Option<string> {
    if phase == "waiting" then Some("brainstorm")
    else if phase == "brainstorm" then Some("grouping")
    else if phase == "grouping" then Some("voting")
    else if phase == "voting" then Some("actions")
    else if phase == "actions" then Some("complete")
    else None
  }

  /** `handleNextPhase`: `phase:change` to the successor, unless there is none or it is `complete`. */
  function NextPhaseIntent(phase: string): (r: Option<Intent>)
    ensures r.Some? <==> NextPhase(phase).Some? && NextPhase(phase).value != "complete"
    ensures r.Some? ==> r.value == PhaseChange(NextPhase(phase).value)
  {
    var next := NextPhase(phase);
    if next.Some? && next.value != "complete" then Some(PhaseChange(next.value)) else None
  }

  /** The Next button is rendered in every phase but `actions`, where the export button replaces it. */
  predicate ShowsNext(phase: string) { phase != "actions" }

  predicate NextDisabled(canProgress: bool) { !canProgress }

  /** The map sends each phase to the one after it, and nothing else anywhere. */
  lemma SuccessorOrder(phase: string)
    ensures forall i :: 0 <= i < |Phases| - 1 ==> NextPhase(Phases[i]) == Some(Phases[i + 1])
    ensures NextPhase(phase).Some? <==> phase in Phases[..|Phases| - 1]
  {
    assert Phases[..|Phases| - 1] == ["waiting", "brainstorm", "grouping", "voting", "actions"];
  }

  /**
   * A click emits a phase change from exactly the first four phases, each to its
   * successor; `waiting` and `complete` are never requested.
   */
  lemma NextPhaseIntents(phase: string)
    ensures NextPhaseIntent(phase).Some? <==> phase in Phases[..4]
    ensures NextPhaseIntent(phase).Some? ==>
              && NextPhaseIntent(phase).value.phase in Phases[1..5]
              && NextPhaseIntent(phase).value.phase != "waiting"
              && NextPhaseIntent(phase).value.phase != "complete"
  {
    assert Phases[..4] == [Phases[0], Phases[1], Phases[2], Phases[3]];
    assert Phases[1..5] == [Phases[1], Phases[2], Phases[3], Phases[4]];
  }
}
