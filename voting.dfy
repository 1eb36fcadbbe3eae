/**
 * The voting page (client/src/pages/Voting.jsx): the votes the caller has
 * left, the votable items of a column ranked by votes, and the top-voted panel.
 */
module Voting {
  import opened Wrappers
  import opened Seqs
  import opened Schema
  import opened Queries
  import opened Projector
  import opened Ranking
  import opened Text
  import VoteButton

  /** Something a vote can target: a group or a note. */
  datatype Candidate = OfGroup(group: Group) | OfNote(note: Note) {
    function Id(): string { if OfGroup? then group.id else note.id }
  }

  /** An entry of a column list: `type` is "group" or "note", `votes` its tally. */
  datatype Votable = Votable(data: Candidate, votes: nat) {
    function Kind(): string { if data.OfGroup? then "group" else "note" }
    function Id(): string { data.Id() }
  }

  /** The columns the page lists; `mixed` is not one of them. */
  const Columns: seq<string> := ["start", "stop", "continue"]

  /** `votesRemaining`: the quota less the caller's votes, `None` for NaN (a quota that reads as no number). */
  function VotesRemaining(s: ClientState): Option<real> {
    var q := NumberOf(Quota(s));
    if q.Some? then Some(q.value - UserVoteCount(s) as real) else None
  }

  /** Without a session the quota is 0, so nothing remains and the count can only make it negative. */
  lemma NoSessionNothingRemains(s: ClientState)
    requires s.session.None?
    ensures VotesRemaining(s) == Some(-(UserVoteCount(s) as real))
  {
  }

  /** The page shows votes remaining exactly when the vote buttons let the caller cast. */
  lemma RemainingIffCanVote(s: ClientState)
    ensures (VotesRemaining(s).Some? && VotesRemaining(s).value > 0.0) <==> VoteButton.CanVote(s)
  {
  }

  function GroupInColumn(column: string): Group -> bool { (g: Group) => g.column == column }

  function GroupEntry(s: ClientState): Group -> Votable { (g: Group) => Votable(OfGroup(g), VoteCount(s, g.id)) }
  function NoteEntry(s: ClientState): Note -> Votable { (n: Note) => Votable(OfNote(n), VoteCount(s, n.id)) }

  function ItemVotes(v: Votable): int { v.votes }

  /** The items `getVotableItems` collects, before sorting: the column's groups, then its ungrouped notes. */
  function ColumnItems(s: ClientState, column: string): seq<Votable> {
    Map(GroupEntry(s), Filter(GroupInColumn(column), s.groups)) + Map(NoteEntry(s), UngroupedNotes(s, column))
  }

  /** `getVotableItems(column)`: the column's items in non-increasing order of votes, ties in collection order. */
  function VotableItems(s: ClientState, column: string): seq<Votable> {
    SortDesc(ItemVotes, ColumnItems(s, column))
  }

  /** The pushes of `getVotableItems`, then the sort. */
  method GetVotableItems(s: ClientState, column: string) returns (items: seq<Votable>)
    ensures items == VotableItems(s, column)
  {
    items := [];
    var columnGroups := Filter(GroupInColumn(column), s.groups);
    var i := 0;
    while i < |columnGroups|
      invariant 0 <= i <= |columnGroups|
      invariant items == Map(GroupEntry(s), columnGroups[..i])
    {
      var g := columnGroups[i];
      MapPrefixStep(GroupEntry(s), columnGroups, i);
      items := items + [Votable(OfGroup(g), VoteCount(s, g.id))];
      i := i + 1;
    }
    assert columnGroups[..i] == columnGroups;
    var ungrouped := UngroupedNotes(s, column);
    var j := 0;
    while j < |ungrouped|
      invariant 0 <= j <= |ungrouped|
      invariant items == Map(GroupEntry(s), columnGroups) + Map(NoteEntry(s), ungrouped[..j])
    {
      var n := ungrouped[j];
      MapPrefixStep(NoteEntry(s), ungrouped, j);
      items := items + [Votable(OfNote(n), VoteCount(s, n.id))];
      j := j + 1;
    }
    assert ungrouped[..j] == ungrouped;
    items := SortDesc(ItemVotes, items);
  }

  /** Whether `x` is the entry of a group or an ungrouped note of `column`, with its tally. */
  predicate ListedIn(s: ClientState, column: string, x: Votable) {
    && x.votes == VoteCount(s, x.Id())
    && (|| (x.data.OfGroup? && x.data.group in s.groups && x.data.group.column == column)
        || (x.data.OfNote? && x.data.note in s.notes && x.data.note.column == column && !Truthy(x.data.note.groupId)))
  }

  /**
   * A column lists exactly its groups and its ungrouped notes, each with the
   * number of votes on it, ordered by non-increasing votes.
   */
  lemma VotableItemsContents(s: ClientState, column: string, x: Votable)
    ensures x in VotableItems(s, column) <==> ListedIn(s, column, x)
    ensures SortedDesc(ItemVotes, VotableItems(s, column))
  {
    var items := ColumnItems(s, column);
    assert x in VotableItems(s, column) <==> x in items by {
      assert x in VotableItems(s, column) <==> x in multiset(items);
    }
    if ListedIn(s, column, x) {
      ListedIsItem(s, column, x);
    }
    if x in items {
      ItemIsListed(s, column, x);
    }
  }

  lemma ListedIsItem(s: ClientState, column: string, x: Votable)
    requires ListedIn(s, column, x)
    ensures x in ColumnItems(s, column)
  {
    var groups := Filter(GroupInColumn(column), s.groups);
    var notes := UngroupedNotes(s, column);
    var gs := Map(GroupEntry(s), groups);
    var ns := Map(NoteEntry(s), notes);
    assert ColumnItems(s, column) == gs + ns;
    if x.data.OfGroup? {
      assert gs[IndexOf(groups, x.data.group)] == x;
    } else {
      assert ns[IndexOf(notes, x.data.note)] == x;
    }
  }

  lemma ItemIsListed(s: ClientState, column: string, x: Votable)
    requires x in ColumnItems(s, column)
    ensures ListedIn(s, column, x)
  {
    var groups := Filter(GroupInColumn(column), s.groups);
    var notes := UngroupedNotes(s, column);
    var gs := Map(GroupEntry(s), groups);
    var ns := Map(NoteEntry(s), notes);
    assert ColumnItems(s, column) == gs + ns;
    if x in gs {
      var k :| 0 <= k < |gs| && gs[k] == x;
      assert groups[k] in groups;
    } else {
      assert x in ns;
      var k :| 0 <= k < |ns| && ns[k] == x;
      assert notes[k] in notes;
    }
  }

  /** A `mixed` group is in no column's list. */
  lemma MixedNeverListed(s: ClientState, g: Group, votes: nat)
    requires g.column == "mixed"
    ensures forall c :: c in Columns ==> Votable(OfGroup(g), votes) !in VotableItems(s, c)
  {
    forall c | c in Columns ensures Votable(OfGroup(g), votes) !in VotableItems(s, c) {
      VotableItemsContents(s, c, Votable(OfGroup(g), votes));
    }
  }

  // --------------------------------------------------------- top-voted panel

  /** A line of the top-voted panel. */
  datatype TopVoted = TopVoted(id: string, title: string, votes: nat)

  /**
   * `item.title || item.text?.substring(0, 30) + '...'`: a group's title when it
   * has one; an untitled group has no text, and shows `undefined...`; a note
   * shows the start of its text.
   */
  function TopTitle(c: Candidate): string {
    match c
    case OfGroup(g) => if g.title != "" then g.title else "undefined..."
    case OfNote(n) => Prefix(n.text, 30) + "..."
  }

  function TopEntry(s: ClientState): Candidate -> TopVoted {
    (c: Candidate) => TopVoted(c.Id(), TopTitle(c), VoteCount(s, c.Id()))
  }

  function NoGroup(): Note -> bool { (n: Note) => !Truthy(n.groupId) }

  /** Every group, of any column, then every ungrouped note (`[...groups, ...notes.filter(n => !n.group_id)]`). */
  function Candidates(s: ClientState): seq<Candidate> {
    Map((g: Group) => OfGroup(g), s.groups) + Map((n: Note) => OfNote(n), Filter(NoGroup(), s.notes))
  }

  /** The candidates are every group and exactly the notes in no group. */
  lemma CandidatesContents(s: ClientState, c: Candidate)
    ensures c in Candidates(s) <==>
      (c.OfGroup? && c.group in s.groups) || (c.OfNote? && c.note in s.notes && !Truthy(c.note.groupId))
  {
    var gs := Map((g: Group) => OfGroup(g), s.groups);
    var ns := Filter(NoGroup(), s.notes);
    var cs := Map((n: Note) => OfNote(n), ns);
    assert Candidates(s) == gs + cs;
    if c.OfGroup? && c.group in s.groups {
      assert gs[IndexOf(s.groups, c.group)] == c;
    }
    if c.OfNote? && c.note in ns {
      assert cs[IndexOf(ns, c.note)] == c;
    }
    if c in gs {
      var k :| 0 <= k < |gs| && gs[k] == c;
      assert s.groups[k] in s.groups;
    }
    if c in cs {
      var k :| 0 <= k < |cs| && cs[k] == c;
      assert ns[k] in ns;
    }
  }

  function HasVotes(): TopVoted -> bool { (e: TopVoted) => e.votes > 0 }
  function TopVotes(e: TopVoted): int { e.votes }

  /** The entries with votes, ranked, before the cut to five. */
  function RankedWithVotes(s: ClientState): seq<TopVoted> {
    Ranked(Map(TopEntry(s), Candidates(s)))
  }

  /** `filter(item => item.votes > 0).sort((a, b) => b.votes - a.votes)`. */
  function Ranked(entries: seq<TopVoted>): (r: seq<TopVoted>)
    ensures forall e :: e in r <==> e in entries && e.votes > 0
    ensures SortedDesc(TopVotes, r)
  {
    var kept := Filter(HasVotes(), entries);
    var r := SortDesc(TopVotes, kept);
    assert forall e :: e in r <==> e in multiset(kept);
    r
  }

  /** `slice(0, 5)`. */
  function FirstFive(ranked: seq<TopVoted>): (r: seq<TopVoted>)
    ensures |r| <= 5 && r <= ranked
    ensures |ranked| <= 5 ==> r == ranked
  {
    if |ranked| <= 5 then ranked else ranked[..5]
  }

  /** The panel: at most five entries, each with at least one vote, in non-increasing order. */
  function TopPanel(s: ClientState): (r: seq<TopVoted>)
    ensures |r| <= 5
    ensures forall e :: e in r ==> e.votes > 0
    ensures SortedDesc(TopVotes, r)
  {
    var ranked := RankedWithVotes(s);
    var r := FirstFive(ranked);
    assert forall e :: e in r ==> e in ranked;
    r
  }

  /** In a ranked list, cutting after five keeps everything with more votes than a kept entry. */
  lemma FirstFiveIsTop(ranked: seq<TopVoted>, e: TopVoted, k: nat)
    requires SortedDesc(TopVotes, ranked)
    requires e in ranked && k < |FirstFive(ranked)| && e.votes > FirstFive(ranked)[k].votes
    ensures e in FirstFive(ranked)
  {
    var m := IndexOf(ranked, e);
    assert FirstFive(ranked)[k] == ranked[k];
    assert m < k;
    assert FirstFive(ranked)[m] == e;
  }

  /** Nothing left off the panel has more votes than an entry on it. */
  lemma TopPanelIsTop(s: ClientState, e: TopVoted, k: nat)
    requires e in RankedWithVotes(s) && k < |TopPanel(s)| && e.votes > TopPanel(s)[k].votes
    ensures e in TopPanel(s)
  {
    FirstFiveIsTop(RankedWithVotes(s), e, k);
  }
}
