/**
 * The vote toggle of one item (client/src/components/VoteButton.jsx): what a
 * click emits and when the button is disabled.
 */
module VoteButton {
  import opened Wrappers
  import opened Seqs
  import opened Schema
  import opened Queries
  import opened Protocol
  import opened Engine
  import opened Projector

  /** `canVote`: the caller's count is below the quota, as JavaScript compares them; never before a session is loaded. */
  predicate CanVote(s: ClientState) {
    Below(UserVoteCount(s), Quota(s))
  }

  /** `handleVote`: remove a vote the caller has, else cast one if there are votes left. */
  function Click(s: ClientState, targetId: string, targetType: string): (r: Option<Intent>)
    ensures HasUserVoted(s, targetId) ==> r == Some(VoteRemove(targetId))
    ensures !HasUserVoted(s, targetId) && CanVote(s) ==> r == Some(VoteCast(targetId, targetType))
    ensures !HasUserVoted(s, targetId) && !CanVote(s) ==> r.None?
  {
    if HasUserVoted(s, targetId) then Some(VoteRemove(targetId))
    else if CanVote(s) then Some(VoteCast(targetId, targetType))
    else None
  }

  predicate Disabled(s: ClientState, targetId: string) {
    !HasUserVoted(s, targetId) && !CanVote(s)
  }

  /** The button is disabled exactly when a click would emit nothing. */
  lemma DisabledIffSilent(s: ClientState, targetId: string, targetType: string)
    ensures Disabled(s, targetId) <==> Click(s, targetId, targetType).None?
  {
  }

  /** Without a session the quota is 0, so a click can only ever remove a vote. */
  lemma NoSessionNoCast(s: ClientState, targetId: string, targetType: string)
    requires s.session.None?
    ensures Click(s, targetId, targetType) != Some(VoteCast(targetId, targetType))
  {
  }

  /**
   * On a copy that agrees with the server and carries the session's quota, a
   * cast the button sends passes the server's quota and duplicate checks: only
   * a bad target type can still refuse it.
   */
  lemma CastAcceptedByServer(s: ClientState, t: Tables, who: Identity, targetId: string, targetType: string, now: int)
    requires who.sessionId in t.sessions
    requires Mirrors(s, t, who.sessionId) && s.user == Some(who)
    requires s.session.Some? && s.session.value.votesPerPerson == t.sessions[who.sessionId].votesPerPerson
    requires Click(s, targetId, targetType) == Some(VoteCast(targetId, targetType))
    ensures var r := VoteCastStep(t, who, targetId, targetType, now);
      IsTargetType(targetType) <==> r.out == [Emission(Room(who.sessionId), VotesUpdated(VotesOf(r.tables.votes, who.sessionId)))]
  {
    QueriesMatchServer(s, t, who, targetId);
    BelowNotAtLeast(UserVoteCount(s), Quota(s));
  }

  /** Likewise a removal the button sends finds the vote on the server. */
  lemma RemoveFindsVote(s: ClientState, t: Tables, who: Identity, targetId: string, targetType: string)
    requires Mirrors(s, t, who.sessionId) && s.user == Some(who)
    requires Click(s, targetId, targetType) == Some(VoteRemove(targetId))
    ensures HasVote(t.votes, who.sessionId, who.email, targetId)
  {
    QueriesMatchServer(s, t, who, targetId);
  }
}
