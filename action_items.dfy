/**
 * The action-items page (client/src/pages/ActionItems.jsx): every group and
 * ungrouped note ranked by votes, the form that sends `action:create`, and the
 * short names shown for assignees.
 */
module ActionItems {
  import opened Wrappers
  import opened Seqs
  import opened Schema
  import opened Protocol
  import opened Projector
  import opened Ranking
  import opened Text
  import opened Voting

  /**
   * An entry of `topItems`. `title` is None where the page computes `undefined`
   * (an untitled group has no text to fall back on).
   */
  datatype TopItem = TopItem(id: string, title: Option<string>, votes: nat, kind: string, data: Candidate)

  /** `item.title || item.text?.substring(0, 50)`. */
  function TopItemTitle(c: Candidate): Option<string> {
    match c
    case OfGroup(g) => if g.title != "" then Some(g.title) else None
    case OfNote(n) => Some(Prefix(n.text, 50))
  }

  /** The entry of one candidate: `type` is "group" exactly for groups, which always carry a title. */
  function ToTop(s: ClientState): Candidate -> TopItem {
    (c: Candidate) => TopItem(c.Id(), TopItemTitle(c), VoteCount(s, c.Id()), if c.OfGroup? then "group" else "note", c)
  }

  function TopItemVotes(x: TopItem): int { x.votes }

  /** `topItems`: every group and ungrouped note, in non-increasing order of votes, ties in collection order. */
  function TopItems(s: ClientState): (r: seq<TopItem>)
    ensures |r| == |Candidates(s)|
    ensures SortedDesc(TopItemVotes, r)
  {
    SortDesc(TopItemVotes, Map(ToTop(s), Candidates(s)))
  }

  /** Whether `x` describes a group or an ungrouped note, with its id, kind and tally. */
  predicate Describes(s: ClientState, x: TopItem) {
    && ((x.data.OfGroup? && x.data.group in s.groups) || (x.data.OfNote? && x.data.note in s.notes && !Truthy(x.data.note.groupId)))
    && x.id == x.data.Id()
    && x.votes == VoteCount(s, x.id)
    && x.kind == (if x.data.OfGroup? then "group" else "note")
    && x.title == TopItemTitle(x.data)
  }

  /** The ranked list holds exactly the entries of the groups and ungrouped notes. */
  lemma TopItemsContents(s: ClientState, x: TopItem)
    ensures x in TopItems(s) <==> Describes(s, x)
  {
    var entries := Map(ToTop(s), Candidates(s));
    assert x in TopItems(s) <==> x in entries by {
      assert x in TopItems(s) <==> x in multiset(entries);
    }
    if Describes(s, x) {
      DescribedIsEntry(s, x);
    }
    if x in entries {
      EntryIsDescribed(s, x);
    }
  }

  lemma DescribedIsEntry(s: ClientState, x: TopItem)
    requires Describes(s, x)
    ensures x in Map(ToTop(s), Candidates(s))
  {
    CandidatesContents(s, x.data);
    var k := IndexOf(Candidates(s), x.data);
    assert Map(ToTop(s), Candidates(s))[k] == ToTop(s)(x.data) == x;
  }

  lemma EntryIsDescribed(s: ClientState, x: TopItem)
    requires x in Map(ToTop(s), Candidates(s))
    ensures Describes(s, x)
  {
    var entries := Map(ToTop(s), Candidates(s));
    var k :| 0 <= k < |entries| && entries[k] == x;
    var c := Candidates(s)[k];
    assert x == ToTop(s)(c);
    CandidatesContents(s, c);
  }

  /** The side panel: the first five ranked entries; nothing off it outvotes an entry on it. */
  lemma SidePanelIsTop(s: ClientState, x: TopItem, k: nat)
    requires x in TopItems(s)
    requires k < |TopItems(s)| && k < 5 && x.votes > TopItems(s)[k].votes
    ensures exists m :: 0 <= m < k && TopItems(s)[m] == x
  {
    var r := TopItems(s);
    var m := IndexOf(r, x);
    assert forall j :: k <= j < |r| ==> TopItemVotes(r[j]) <= TopItemVotes(r[k]);
    assert m < k;
  }

  // ------------------------------------------------------------ the form

  /** `!title.trim() || !assignee`: the button is disabled and the handler returns early. */
  predicate CreateDisabled(title: string, assignee: string) {
    Trim(title) == "" || assignee == ""
  }

  /** `handleCreateAction`: an `action:create` with the trimmed title, the assignee, and the link or null. */
  function CreateActionClick(title: string, assignee: string, linkedTo: string): (r: Option<Intent>)
    ensures r.None? <==> CreateDisabled(title, assignee)
    ensures r.Some? ==> r.value.ActionCreate? && r.value.assignee == assignee
    ensures r.Some? ==> r.value.linkedTo == (if linkedTo == "" then None else Some(linkedTo))
  {
    if CreateDisabled(title, assignee) then None
    else Some(ActionCreate(Trim(title), assignee, if linkedTo == "" then None else Some(linkedTo)))
  }

  /** What the form sends has a non-empty title with no whitespace around it, and a non-empty link when it has one. */
  lemma SentActionIsClean(title: string, assignee: string, linkedTo: string)
    requires CreateActionClick(title, assignee, linkedTo).Some?
    ensures var i := CreateActionClick(title, assignee, linkedTo).value;
      && i.title != "" && Trim(i.title) == i.title && i.title == Trim(title)
      && i.assignee != ""
      && (i.linkedTo.Some? <==> Truthy(i.linkedTo))
  {
    TrimIdempotent(title);
  }

  // ------------------------------------------------------------ names

  /** `email.split('@')[0]`: the part of an address before the first `@`. */
  function ShortName(email: string): (r: string)
    ensures r <= email && '@' !in r
    ensures '@' !in email ==> r == email
  {
    SplitHead(email, '@');
    Split(email, '@')[0]
  }
}
