/**
 * The session setup form (client/src/pages/Setup.jsx): how the textarea becomes
 * an email list, the checks before the request, and the request it sends.
 */
module Setup {
  import opened Wrappers
  import opened Seqs
  import opened Schema
  import opened Text
  import opened Server

  function NonEmpty(): string -> bool { (e: string) => |e| > 0 }

  /**
   * `emailList`: the textarea split into lines, each trimmed, blank ones
   * dropped. Every entry is non-empty and has no whitespace at either end.
   */
  function EmailList(emails: string): (r: seq<string>)
    ensures forall e :: e in r ==> e != "" && !IsSpace(e[0]) && !IsSpace(e[|e| - 1])
    ensures forall e :: e in r ==> '\n' !in e
  {
    var pieces := Split(emails, '\n');
    CleanLines(pieces);
    Filter(NonEmpty(), Map(Trim, pieces))
  }

  /** Trimmed lines without a line break, blank ones dropped, are clean entries. */
  lemma CleanLines(pieces: seq<string>)
    requires forall i :: 0 <= i < |pieces| ==> '\n' !in pieces[i]
    ensures forall e :: e in Filter(NonEmpty(), Map(Trim, pieces)) ==>
      e != "" && !IsSpace(e[0]) && !IsSpace(e[|e| - 1]) && '\n' !in e
  {
    var trimmed := Map(Trim, pieces);
    forall e | e in Filter(NonEmpty(), trimmed)
      ensures e != "" && !IsSpace(e[0]) && !IsSpace(e[|e| - 1]) && '\n' !in e
    {
      var i :| 0 <= i < |trimmed| && trimmed[i] == e;
      TrimAddsNothing(pieces[i], '\n');
    }
  }

  /** Typed line by line, the list is the non-blank lines, trimmed, in the order they were typed. */
  lemma EmailListOfLines(lines: seq<string>)
    requires |lines| >= 1
    requires forall i :: 0 <= i < |lines| ==> '\n' !in lines[i]
    ensures EmailList(Join(lines, '\n')) == Filter(NonEmpty(), Map(Trim, lines))
  {
    SplitJoin(lines, '\n');
  }

  const AlertTooFew: string := "Please add at least 2 email addresses"
  const AlertNoFacilitator: string := "Please select a facilitator from the email list"

  /** The alert `handleCreateSession` shows instead of sending, if any. */
  function CreateGuard(emailList: seq<string>, facilitatorEmail: string): (r: Option<string>)
    ensures r == Some(AlertTooFew) <==> |emailList| < 2
    ensures r == Some(AlertNoFacilitator) <==> |emailList| >= 2 && (facilitatorEmail == "" || facilitatorEmail !in emailList)
    ensures r.None? <==> |emailList| >= 2 && facilitatorEmail != "" && facilitatorEmail in emailList
  {
    if |emailList| < 2 then Some(AlertTooFew)
    else if facilitatorEmail == "" || facilitatorEmail !in emailList then Some(AlertNoFacilitator)
    else None
  }

  /**
   * The request body: exactly the list, the facilitator and the quota. The
   * quota comes from `parseInt` of the number field, here `None` for `NaN`,
   * which `JSON.stringify` sends as `null`.
   */
  function RequestBody(emailList: seq<string>, facilitatorEmail: string, votesPerPerson: Option<int>): CreateRequest {
    CreateRequest(Some(emailList), Some(facilitatorEmail), if votesPerPerson.Some? then JNum(votesPerPerson.value as real) else JNull)
  }

  /** What a click sends: nothing when a guard alerts. */
  function CreateClick(emails: string, facilitatorEmail: string, votesPerPerson: Option<int>): Option<CreateRequest> {
    var list := EmailList(emails);
    if CreateGuard(list, facilitatorEmail).Some? then None
    else Some(RequestBody(list, facilitatorEmail, votesPerPerson))
  }

  /** The button is disabled while sending, with fewer than two emails, or with no facilitator chosen. */
  predicate CreateDisabled(loading: bool, emailList: seq<string>, facilitatorEmail: string) {
    loading || |emailList| < 2 || facilitatorEmail == ""
  }

  /**
   * A request the form sends passes the server's email and facilitator checks;
   * the server refuses it exactly when the quota is missing or below one.
   */
  lemma SentRequestPassesServerChecks(emails: string, facilitatorEmail: string, votesPerPerson: Option<int>)
    requires CreateClick(emails, facilitatorEmail, votesPerPerson).Some?
    ensures var req := CreateClick(emails, facilitatorEmail, votesPerPerson).value;
      && EnoughEmails(req) && FacilitatorListed(req)
      && (CreateRejection(req).None? <==> votesPerPerson.Some? && votesPerPerson.value >= 1)
  {
    var req := CreateClick(emails, facilitatorEmail, votesPerPerson).value;
    assert req == RequestBody(EmailList(emails), facilitatorEmail, votesPerPerson);
    SentQuota(req.emails.value, facilitatorEmail, votesPerPerson);
  }

  /** The quota field passes the server's check exactly when it parsed to at least one. */
  lemma SentQuota(emailList: seq<string>, facilitatorEmail: string, votesPerPerson: Option<int>)
    ensures QuotaGiven(RequestBody(emailList, facilitatorEmail, votesPerPerson)) <==> votesPerPerson.Some? && votesPerPerson.value >= 1
  {
    if votesPerPerson.Some? {
      var x := votesPerPerson.value as real;
      assert RequestBody(emailList, facilitatorEmail, votesPerPerson).votesPerPerson == JNum(x);
      assert x >= 1.0 <==> votesPerPerson.value >= 1;
    }
  }

  /** With the button enabled, the only check left to fail is the facilitator being off the list. */
  lemma EnabledLeavesFacilitatorCheck(emails: string, facilitatorEmail: string, votesPerPerson: Option<int>)
    requires !CreateDisabled(false, EmailList(emails), facilitatorEmail)
    ensures CreateClick(emails, facilitatorEmail, votesPerPerson).None? <==> facilitatorEmail !in EmailList(emails)
  {
  }
}
