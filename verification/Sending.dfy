/** The cold and follow-up sends as logs of writes: what a send attempt does to the store, whatever Airbnb answers. */
module Sending {
  import opened Records
  import opened Texts
  import opened Identity
  import opened Gate
  import opened Merge
  import opened Writes
  import opened Sync

  /** What one attempt meets on Airbnb. Only a cold attempt can be redirected to an existing thread or find a
      listing without a composer. A success always carries a thread. An attempt that is blocked or breaks after the send
      button was pressed may have reached the host all the same: `posted` tells, and the code cannot see it. */
  datatype Attempt =
    | Blocks(block: BlockType, posted: bool)
    | Delivers(thread: ThreadUrl)
    | Uncontactable
    | Breaks(posted: bool)
    | Finds(url: ThreadUrl, scraped: seq<Scraped>, listings: seq<string>, owner: Option<LeadId>)

  datatype Result = Blocked(block: BlockType) | Sent(thread: ThreadUrl) | Existing | Unreachable | Failed

  datatype Ctx = Ctx(now: Time, account: AccountId, text: string, delay: Phase -> nat, maxFailures: int)

  /** One send as the job meets it: the two answers of Airbnb and the error text a failure would carry. */
  datatype Job = Job(ctx: Ctx, first: Attempt, second: Attempt, error: string)

  datatype Tried = Tried(log: seq<Write>, result: Result)

  datatype Outcome = WasSent | WasFailed | WasBlocked(block: BlockType) | WasSkipped | Threw

  datatype Plan = Plan(log: seq<Write>, outcome: Outcome)

  const DAY: int := 24 * 60 * 60 * 1000

  // ---------- the thread already exists ----------

  /** What `extractThreadUrl` captures of a page address: a host, the messages path and the thread's own part. */
  ghost predicate IsThreadUrl(url: string) {
    exists scheme, m :: NamesThread(url, scheme, m)
  }

  const MESSAGES_PATH := "/guest/messages/"

  /** After the scheme the host ends at `m`, and behind the path stands at least one character. */
  predicate NamesThread(url: string, scheme: string, m: nat) {
    && (scheme == "http://" || scheme == "https://") && StartsWithIgnoringCase(url, scheme)
    && |scheme| < m && m + |MESSAGES_PATH| < |url|
    && '/' !in url[|scheme|..m] && StartsWithIgnoringCase(url[m..], MESSAGES_PATH)
    && forall c :: c in url[m + |MESSAGES_PATH|..] ==> !IsBlank(c) && c != '?' && c != '#' && c != '/'
  }

  predicate HoldsThreadNumber(l: Lead, number: string) {
    l.thread.Some? && Contains(l.thread.value, number)
  }

  /** `owner` answers the query for another lead whose thread contains the thread number of the URL. */
  ghost predicate OwnerAnswer(db: Db, id: LeadId, url: ThreadUrl, owner: Option<LeadId>) {
    var number := ParseThreadId(url);
    match owner
    case Some(k) => number.Some? && k in db.leads && k != id && HoldsThreadNumber(db.leads[k], number.value)
    case None => number.Some? ==> forall k :: k in db.leads && k != id ==> !HoldsThreadNumber(db.leads[k], number.value)
  }

  /** An owner named by the attempt is a lead of the store. */
  predicate Names(db: Db, a: Attempt) {
    a.Finds? && a.owner.Some? ==> a.owner.value in db.leads
  }

  predicate JobNames(db: Db, job: Job) {
    Names(db, job.first) && Names(db, job.second)
  }

  function Says(rows: seq<Message>): seq<Write> {
    if rows == [] then [] else Says(rows[..|rows| - 1]) + [Say(rows[|rows| - 1])]
  }

  function AliasWrites(listings: seq<string>, host: HostId, lead: LeadId): seq<Write> {
    if listings == [] then []
    else
      var front := AliasWrites(listings[..|listings| - 1], host, lead);
      var alias := ListingHostId(listings[|listings| - 1]);
      if alias == host then front else front + [LinkAlias(alias, host, Some(lead))]
  }

  function LinkedAliases(al: map<HostId, Alias>, listings: seq<string>, host: HostId,
                         lead: LeadId): map<HostId, Alias> {
    if listings == [] then al
    else
      var front := LinkedAliases(al, listings[..|listings| - 1], host, lead);
      var alias := ListingHostId(listings[|listings| - 1]);
      if alias == host then front else front[alias := Alias(host, Some(lead))]
  }

  /** Syncing a scraped thread onto `target` and registering the listings it names. */
  function HeadLog(rules: Rules, db: Db, target: LeadId, scraped: seq<Scraped>, listings: seq<string>): seq<Write>
    requires target in db.leads
  {
    Says(SyncedRows(rules, db.messages, target, scraped)) + AliasWrites(listings, db.leads[target].host, target)
  }

  function HeadDb(rules: Rules, db: Db, target: LeadId, scraped: seq<Scraped>, listings: seq<string>): Db
    requires target in db.leads
  {
    db.(messages := db.messages + SyncedRows(rules, db.messages, target, scraped),
        aliases := LinkedAliases(db.aliases, listings, db.leads[target].host, target))
  }

  function FoundStatus(status: LeadStatus, scraped: seq<Scraped>): LeadStatus {
    if !status.LeadDiscovered? then status
    else if exists i :: 0 <= i < |scraped| && scraped[i].inbound then RepliedInProgress
    else InitialMsgSent
  }

  function FoundRow(l: Lead, url: ThreadUrl, scraped: seq<Scraped>, now: Time): Lead {
    l.(thread := Some(url), status := FoundStatus(l.status, scraped), lastContacted := Some(now), nextFollowUp := None)
  }

  function GuardContact(l: Lead, ctx: Ctx): Contact { Contact(l.host, ctx.now, Some(ctx.account), PresendGuard) }

  function MarkIfNew(contacts: map<LeadId, Contact>, id: LeadId, contact: Contact): seq<Write> {
    if id in contacts then [] else [Mark(id, contact)]
  }

  /** The log of `syncExistingColdThread`. When the thread cannot be claimed the write fails and the error is
      reported as a failed attempt, with the synced messages and aliases left behind. */
  function FoundThread(rules: Rules, db: Db, id: LeadId, ctx: Ctx, a: Attempt): Tried
    requires a.Finds? && id in db.leads && Names(db, a)
  {
    match a.owner
    case Some(k) =>
      var head := HeadLog(rules, db, k, a.scraped, a.listings);
      if k != id && MergeCommits(db, k, id) then
        Tried(head + [Absorb(k, id)] + MarkIfNew(MergedContacts(db, k, id), k, GuardContact(db.leads[k], ctx)),
            Existing)
      else Tried(head, Failed)
    case None =>
      var head := HeadLog(rules, db, id, a.scraped, a.listings);
      if ThreadFree(db.leads, id, Some(a.url)) then
        Tried(head + [Update(id, FoundRow(db.leads[id], a.url, a.scraped, ctx.now))]
              + MarkIfNew(db.contacts, id, GuardContact(db.leads[id], ctx)), Existing)
      else Tried(head, Failed)
  }

  // ---------- attempts ----------

  function TryOnce(rules: Rules, db: Db, id: LeadId, ctx: Ctx, a: Attempt): Tried
    requires id in db.leads
    requires Names(db, a)
  {
    match a
    case Blocks(b, _) => Tried([], Blocked(b))
    case Delivers(t) => Tried([], Sent(t))
    case Uncontactable => Tried([], Unreachable)
    case Breaks(_) => Tried([], Failed)
    case Finds(_, _, _, _) => FoundThread(rules, db, id, ctx, a)
  }

  /** The answers Airbnb can give to a send. */
  ghost predicate Fits(db: Db, id: LeadId, cold: bool, a: Attempt) {
    match a
    case Blocks(_, _) => true
    case Breaks(_) => true
    case Delivers(_) => true
    case Uncontactable => cold
    case Finds(url, _, _, owner) => cold && IsThreadUrl(url) && OwnerAnswer(db, id, url, owner)
  }

  ghost predicate JobFits(db: Db, id: LeadId, cold: bool, job: Job) {
    Fits(db, id, cold, job.first) && Fits(db, id, cold, job.second)
  }

  /** A failed first attempt is repeated once, without asking the gate again. */
  function Attempts(rules: Rules, db: Db, id: LeadId, job: Job): Tried
    requires id in db.leads && JobNames(db, job)
  {
    var first := TryOnce(rules, db, id, job.ctx, job.first);
    if !first.result.Failed? then first
    else
      var between := AfterFailure(rules, db, id, job.first);
      var second := TryOnce(rules, between, id, job.ctx, job.second);
      Tried(first.log + second.log, second.result)
  }

  /** The store after a failed attempt. */
  function AfterFailure(rules: Rules, db: Db, id: LeadId, a: Attempt): (r: Db)
    requires id in db.leads
    requires Names(db, a)
    ensures r.leads == db.leads && r.contacts == db.contacts
  {
    if a.Finds? then HeadDb(rules, db, if a.owner.Some? then a.owner.value else id, a.scraped, a.listings) else db
  }

  // ---------- delivery and failure ----------

  function FollowUpAt(p: Phase, ctx: Ctx): Option<Time> {
    if p.Phase4Breakup? then None else Some(ctx.now + ctx.delay(p) * DAY)
  }

  function TemplateMessage(id: LeadId, p: Phase, ctx: Ctx): Message {
    Message(id, Outbound, ctx.text, Some(PhaseTag(p)))
  }

  function AdvancedRow(l: Lead, p: Phase, thread: ThreadUrl, ctx: Ctx): Lead {
    l.(status := NextStatus(p), lastContacted := Some(ctx.now), nextFollowUp := FollowUpAt(p, ctx),
        thread := Some(thread))
  }

  /** Record, transition, ledger. The transition throws when another lead holds the reported thread. */
  function Deliver(db: Db, id: LeadId, p: Phase, thread: ThreadUrl, ctx: Ctx): Plan
    requires id in db.leads
  {
    var l := db.leads[id];
    var row := AdvancedRow(l, p, thread, ctx);
    var record := [Say(TemplateMessage(id, p, ctx))];
    if !ThreadFree(db.leads, id, row.thread) then Plan(record, Threw)
    else
      var mark := if l.status.LeadDiscovered?
                  then MarkIfNew(db.contacts, id, Contact(l.host, ctx.now, Some(ctx.account), FromOutbound)) else [];
      Plan(record + [Update(id, row)] + mark, WasSent)
  }

  const COLD_SEND_FAILURE := "COLD_SEND_FAILURE"

  predicate IsFailureNote(m: Message, id: LeadId) {
    m.lead == id && m.direction.System? && m.intent == Some(COLD_SEND_FAILURE)
  }

  function CountFailures(ms: seq<Message>, id: LeadId): nat {
    if ms == [] then 0
    else CountFailures(ms[..|ms| - 1], id) + if IsFailureNote(ms[|ms| - 1], id) then 1 else 0
  }

  function FailureNote(id: LeadId, text: string): Message { Message(id, System, text, Some(COLD_SEND_FAILURE)) }

  /** A cold failure is noted; at the cap a lead still in discovery leaves the queue for good. */
  function FailureLog(db: Db, id: LeadId, text: string, maxFailures: int): seq<Write>
    requires id in db.leads
  {
    var note := [Say(FailureNote(id, text))];
    if CountFailures(db.messages, id) + 1 >= maxFailures && db.leads[id].status.LeadDiscovered?
    then note + [Update(id, db.leads[id].(status := ClosedLost, nextFollowUp := None))]
    else note
  }

  // ---------- the two senders ----------

  /** What follows the attempts: delivery, a noted failure or nothing. */
  function Tail(now: Db, id: LeadId, p: Phase, job: Job, result: Result): Plan
    requires id in now.leads
  {
    var cold := now.leads[id].status.LeadDiscovered?;
    match result
    case Blocked(b) => Plan([], WasBlocked(b))
    case Existing => Plan([], WasSkipped)
    case Sent(thread) => Deliver(now, id, p, thread, job.ctx)
    case _ => Plan(if cold then FailureLog(now, id, job.error, job.ctx.maxFailures) else [], WasFailed)
  }

  /** Everything after the gate. */
  function SendCore(rules: Rules, db: Db, id: LeadId, p: Phase, job: Job): Plan
    requires id in db.leads && JobNames(db, job)
  {
    var t := Attempts(rules, db, id, job);
    var tail := Tail(AfterAttempts(rules, db, id, job), id, p, job, t.result);
    Plan(t.log + tail.log, tail.outcome)
  }

  /** The store after attempts that left the lead in place. */
  function AfterAttempts(rules: Rules, db: Db, id: LeadId, job: Job): (r: Db)
    requires id in db.leads && JobNames(db, job)
    ensures r.leads == db.leads && r.contacts == db.contacts
  {
    var first := TryOnce(rules, db, id, job.ctx, job.first);
    if !first.result.Failed? then db
    else
      var between := AfterFailure(rules, db, id, job.first);
      if TryOnce(rules, between, id, job.ctx, job.second).result.Failed? then AfterFailure(rules, between, id,
          job.second) else between
  }

  /** `sendLeadWithAccount`: one lead, one account. */
  function SendLead(rules: Rules, db: Db, id: LeadId, job: Job): Plan
    requires id in db.leads && JobNames(db, job)
  {
    var status := db.leads[id].status;
    if GateReason(rules, db, id).Some? && status.LeadDiscovered? then Plan([], WasSkipped)
    else
      match PhaseForStatus(status)
      case None => Plan([], WasSkipped)
      case Some(p) => SendCore(rules, db, id, p, job)
  }

  function BoundRow(l: Lead, url: string, title: Option<string>): Lead {
    l.(url := url, listingName := Or(title, l.listingName))
  }

  function BindLog(l: Lead, id: LeadId, url: string, title: Option<string>): seq<Write> {
    if l.url == url && (title.None? || l.listingName == title) then [] else [Update(id, BoundRow(l, url, title))]
  }

  function Bound(db: Db, id: LeadId, url: string, title: Option<string>): (r: Db)
    requires id in db.leads
    ensures r.leads.Keys == db.leads.Keys
  {
    if db.leads[id].url == url && (title.None? || db.leads[id].listingName == title) then db
    else db.(leads := db.leads[id := BoundRow(db.leads[id], url, title)])
  }

  /** `sendColdImmediatelyAfterHarvest`: gate, bind the lead to the harvested listing, send. */
  function HarvestSend(rules: Rules, db: Db, id: LeadId, url: string, title: Option<string>, job: Job): Plan
    requires id in db.leads && JobNames(db, job)
  {
    if GateReason(rules, db, id).Some? then Plan([], WasSkipped)
    else
      var core := SendCore(rules, Bound(db, id, url, title), id, Phase1Cold, job);
      Plan(BindLog(db.leads[id], id, url, title) + core.log, core.outcome)
  }

  // ---------- the logs are legal ----------

  lemma TagsDiffer(p: Phase)
    ensures PhaseTag(p) != THREAD_SYNC && PhaseTag(p) != COLD_SEND_FAILURE && PhaseTag(p) != CURIOSITY_REPLY
    ensures THREAD_SYNC != CURIOSITY_REPLY
    ensures forall q :: PhaseTag(q) == PhaseTag(p) ==> q == p
  {
    assert |CURIOSITY_REPLY| == 15 && |THREAD_SYNC| == 11 && |COLD_SEND_FAILURE| == 17;
    assert PhaseTag(p)[6] == match p
      case Phase1Cold => '1' case Phase2Ops => '2' case Phase3Bi => '3' case Phase4Breakup => '4';
    forall q | PhaseTag(q) == PhaseTag(p)
      ensures q == p
    {
      assert PhaseTag(q)[6] == match q
        case Phase1Cold => '1' case Phase2Ops => '2' case Phase3Bi => '3' case Phase4Breakup => '4';
    }
    assert PhaseTag(p)[0] == 'P' && THREAD_SYNC[0] == 'T' && COLD_SEND_FAILURE[0] == 'C' && CURIOSITY_REPLY[0] == 'C';
  }

  /** A message that no discipline restricts. */
  ghost predicate Plain(m: Message) {
    (forall p :: !IsTemplate(m, p)) && !IsCuriosity(m) && (m.direction.Outbound? ==> IsCopy(m))
  }

  lemma {:induction false} SaysRun(db: Db, rows: seq<Message>)
    requires forall i :: 0 <= i < |rows| ==> rows[i].lead in db.leads && Plain(rows[i])
    ensures Run(db, Says(rows)) == Some(db.(messages := db.messages + rows))
  {
    if rows == [] {
      assert db.messages + rows == db.messages;
    } else {
      var front, m := rows[..|rows| - 1], rows[|rows| - 1];
      SaysRun(db, front);
      RunSnoc(db, Says(front), Say(m));
      assert db.messages + rows == (db.messages + front) + [m];
    }
  }

  lemma {:induction false} AliasesRun(db: Db, listings: seq<string>, host: HostId, lead: LeadId)
    ensures Run(db, AliasWrites(listings, host, lead))
      == Some(db.(aliases := LinkedAliases(db.aliases, listings, host, lead)))
  {
    if listings != [] {
      var front := listings[..|listings| - 1];
      AliasesRun(db, front, host, lead);
      RunSnoc(db, AliasWrites(front, host, lead), LinkAlias(ListingHostId(listings[|listings| - 1]), host, Some(lead)));
    }
  }

  lemma SyncedRowsArePlain(rules: Rules, ms: seq<Message>, target: LeadId, scraped: seq<Scraped>)
    ensures forall i :: 0 <= i < |SyncedRows(rules, ms, target, scraped)| ==>
      SyncedRows(rules, ms, target, scraped)[i].lead == target && Plain(SyncedRows(rules, ms, target, scraped)[i])
  {
    SyncedRowsAreTheLeads(rules, ms, target, scraped);
    forall p
      ensures PhaseTag(p) != THREAD_SYNC
    {
      TagsDiffer(p);
    }
    TagsDiffer(Phase1Cold);
  }

  lemma HeadRuns(rules: Rules, db: Db, target: LeadId, scraped: seq<Scraped>, listings: seq<string>)
    requires target in db.leads
    ensures Run(db, HeadLog(rules, db, target, scraped, listings)) == Some(HeadDb(rules, db, target, scraped, listings))
  {
    var rows := SyncedRows(rules, db.messages, target, scraped);
    SyncedRowsArePlain(rules, db.messages, target, scraped);
    SaysRun(db, rows);
    var after := db.(messages := db.messages + rows);
    AliasesRun(after, listings, db.leads[target].host, target);
    RunConcat(db, Says(rows), AliasWrites(listings, db.leads[target].host, target));
  }

  lemma MarkRuns(db: Db, id: LeadId, contact: Contact)
    requires Consistent(db) && id in db.leads && contact.host == db.leads[id].host
    ensures LegalLog(db, MarkIfNew(db.contacts, id, contact))
  {
    if id !in db.contacts {
      RunOne(db, Mark(id, contact));
    }
  }

  /** With the ledger naming its owners, a merge fails only when a thread has to move. */
  lemma OwnersMerge(db: Db, c: LeadId, d: LeadId)
    requires Consistent(db) && c in db.leads && d in db.leads && c != d
    ensures MergeCommits(db, c, d) <==> !(db.leads[c].thread.None? && db.leads[d].thread.Some?)
  {
    if d in db.contacts && c !in db.contacts {
      forall k | k in db.contacts && k != d
        ensures db.contacts[k].host != db.leads[c].host
      {
        assert db.contacts[k].host == db.leads[k].host;
      }
    }
  }

  lemma OwnedThreadRuns(rules: Rules, db: Db, id: LeadId, ctx: Ctx, a: Attempt)
    requires Consistent(db) && id in db.leads && a.Finds? && OwnerAnswer(db, id, a.url, a.owner) && a.owner.Some?
    ensures LegalLog(db, FoundThread(rules, db, id, ctx, a).log) && FoundThread(rules, db, id, ctx, a).result.Existing?
  {
    var k := a.owner.value;
    var head, h := HeadLog(rules, db, k, a.scraped, a.listings), HeadDb(rules, db, k, a.scraped, a.listings);
    HeadRuns(rules, db, k, a.scraped, a.listings);
    RunKeepsIndices(db, head);
    OwnersMerge(db, k, id);
    AbsorbThenMark(db, head, h, k, id, GuardContact(db.leads[k], ctx));
  }

  lemma AbsorbThenMark(db: Db, head: seq<Write>, h: Db, k: LeadId, id: LeadId, contact: Contact)
    requires Run(db, head) == Some(h) && Consistent(h)
    requires k in h.leads && id in h.leads && k != id && MergeCommits(h, k, id) && contact.host == h.leads[k].host
    ensures LegalLog(db, head + [Absorb(k, id)] + MarkIfNew(MergedContacts(h, k, id), k, contact))
  {
    RunSnoc(db, head, Absorb(k, id));
    WriteKeepsIndices(h, Absorb(k, id));
    var n := Merged(h, k, id);
    MarkRuns(n, k, contact);
    RunConcat(db, head + [Absorb(k, id)], MarkIfNew(n.contacts, k, contact));
  }

  lemma UpdateThenMark(db: Db, head: seq<Write>, h: Db, id: LeadId, row: Lead, contact: Contact)
    requires Run(db, head) == Some(h) && Consistent(h) && Legal(h, Update(id, row)) && contact.host == h.leads[id].host
    ensures LegalLog(db, head + [Update(id, row)] + MarkIfNew(h.contacts, id, contact))
  {
    RunSnoc(db, head, Update(id, row));
    WriteKeepsIndices(h, Update(id, row));
    var n := Apply(h, Update(id, row));
    MarkRuns(n, id, contact);
    RunConcat(db, head + [Update(id, row)], MarkIfNew(n.contacts, id, contact));
  }

  /** Meeting an existing thread writes a legal log. It fails only when no owner was found for the thread and another
      lead still holds its URL, and then only messages and aliases were written. */
  lemma FoundThreadRuns(rules: Rules, db: Db, id: LeadId, ctx: Ctx, a: Attempt)
    requires Consistent(db) && id in db.leads && a.Finds? && OwnerAnswer(db, id, a.url, a.owner)
    ensures var t := FoundThread(rules, db, id, ctx, a);
      && LegalLog(db, t.log)
      && (t.result.Failed? <==> a.owner.None? && !ThreadFree(db.leads, id, Some(a.url)))
      && (t.result.Failed? ==> Run(db, t.log) == Some(AfterFailure(rules, db, id, a)))
  {
    if a.owner.Some? {
      OwnedThreadRuns(rules, db, id, ctx, a);
    } else {
      HeadRuns(rules, db, id, a.scraped, a.listings);
      var head, h := HeadLog(rules, db, id, a.scraped, a.listings), HeadDb(rules, db, id, a.scraped, a.listings);
      RunKeepsIndices(db, head);
      if ThreadFree(db.leads, id, Some(a.url)) {
        UpdateThenMark(db, head, h, id, FoundRow(db.leads[id], a.url, a.scraped, ctx.now),
            GuardContact(db.leads[id], ctx));
      }
    }
  }

  lemma TryRuns(rules: Rules, db: Db, id: LeadId, ctx: Ctx, cold: bool, a: Attempt)
    requires Consistent(db) && id in db.leads && Fits(db, id, cold, a)
    ensures var t := TryOnce(rules, db, id, ctx, a);
      && LegalLog(db, t.log)
      && (t.result.Failed? ==> Run(db, t.log) == Some(AfterFailure(rules, db, id, a)))
      && (t.result.Failed? || t.result.Existing? || t.log == [])
      && (t.result.Existing? ==> a.Finds?)
      && (t.result.Failed? && a.Finds? ==> a.owner.None? && !ThreadFree(db.leads, id, Some(a.url)))
  {
    if a.Finds? {
      FoundThreadRuns(rules, db, id, ctx, a);
    }
  }

  /** Both attempts: legal, and unless the thread was found to exist they leave leads and ledger as they were. */
  lemma AttemptsRun(rules: Rules, db: Db, id: LeadId, cold: bool, job: Job)
    requires Consistent(db) && id in db.leads && JobFits(db, id, cold, job)
    ensures var t := Attempts(rules, db, id, job);
      && LegalLog(db, t.log)
      && (!t.result.Existing? ==> Run(db, t.log) == Some(AfterAttempts(rules, db, id, job)))
  {
    TryRuns(rules, db, id, job.ctx, cold, job.first);
    var first := TryOnce(rules, db, id, job.ctx, job.first);
    if first.result.Failed? {
      var between := AfterFailure(rules, db, id, job.first);
      RunKeepsIndices(db, first.log);
      assert Fits(between, id, cold, job.second);
      TryRuns(rules, between, id, job.ctx, cold, job.second);
      RunConcat(db, first.log, TryOnce(rules, between, id, job.ctx, job.second).log);
    }
  }

  lemma FailureRuns(db: Db, id: LeadId, text: string, maxFailures: int)
    requires Consistent(db) && id in db.leads
    ensures LegalLog(db, FailureLog(db, id, text, maxFailures))
  {
    var note := Say(FailureNote(id, text));
    RunOne(db, note);
    var log := FailureLog(db, id, text, maxFailures);
    if |log| > 1 {
      RunSnoc(db, [note], log[1]);
      assert log == [note] + [log[1]];
    }
  }

  lemma DeliverRuns(db: Db, id: LeadId, p: Phase, thread: ThreadUrl, ctx: Ctx)
    requires Consistent(db) && id in db.leads && PhaseForStatus(db.leads[id].status) == Some(p)
    ensures LegalLog(db, Deliver(db, id, p, thread, ctx).log)
  {
    var say := Say(TemplateMessage(id, p, ctx));
    TemplateIsLegal(db, id, p, ctx);
    RunOne(db, say);
    var l := db.leads[id];
    var row := AdvancedRow(l, p, thread, ctx);
    if ThreadFree(db.leads, id, row.thread) {
      WriteKeepsIndices(db, say);
      UpdateThenMark(db, [say], Apply(db, say), id, row, Contact(l.host, ctx.now, Some(ctx.account), FromOutbound));
      RunSnoc(db, [say], Update(id, row));
      assert [say] + [Update(id, row)] + [] == [say] + [Update(id, row)];
    }
  }

  /** The record and the transition, when the thread is free. */
  lemma AdvanceRuns(db: Db, id: LeadId, p: Phase, thread: ThreadUrl, ctx: Ctx)
    requires Consistent(db) && id in db.leads && PhaseForStatus(db.leads[id].status) == Some(p)
    requires ThreadFree(db.leads, id, Some(thread))
    ensures var row, m := AdvancedRow(db.leads[id], p, thread, ctx), TemplateMessage(id, p, ctx);
      var now := db.(messages := db.messages + [m], leads := db.leads[id := row]);
      Run(db, [Say(m)] + [Update(id, row)]) == Some(now) && Consistent(now)
  {
    var row, say := AdvancedRow(db.leads[id], p, thread, ctx), Say(TemplateMessage(id, p, ctx));
    TemplateIsLegal(db, id, p, ctx);
    RunOne(db, say);
    RunSnoc(db, [say], Update(id, row));
    RunKeepsIndices(db, [say] + [Update(id, row)]);
  }

  lemma TemplateIsLegal(db: Db, id: LeadId, p: Phase, ctx: Ctx)
    requires id in db.leads && PhaseForStatus(db.leads[id].status) == Some(p)
    ensures Legal(db, Say(TemplateMessage(id, p, ctx)))
  {
    TagsDiffer(p);
  }

  lemma SendCoreRuns(rules: Rules, db: Db, id: LeadId, p: Phase, job: Job)
    requires Consistent(db) && id in db.leads && PhaseForStatus(db.leads[id].status) == Some(p)
    requires var cold := db.leads[id].status.LeadDiscovered?; JobFits(db, id, cold, job)
    ensures LegalLog(db, SendCore(rules, db, id, p, job).log)
  {
    var cold := db.leads[id].status.LeadDiscovered?;
    AttemptsRun(rules, db, id, cold, job);
    var t := Attempts(rules, db, id, job);
    var now := AfterAttempts(rules, db, id, job);
    if t.result.Existing? {
      assert t.log + [] == t.log;
    } else {
      RunKeepsIndices(db, t.log);
      FailureRuns(now, id, job.error, job.ctx.maxFailures);
      if t.result.Sent? {
        DeliverRuns(now, id, p, t.result.thread, job.ctx);
      }
      RunConcat(db, t.log, Tail(now, id, p, job, t.result).log);
    }
  }

  /** Whatever Airbnb answers, sending to a lead writes a legal log. */
  lemma SendLeadRuns(rules: Rules, db: Db, id: LeadId, job: Job)
    requires Consistent(db) && id in db.leads
    requires var cold := db.leads[id].status.LeadDiscovered?; JobFits(db, id, cold, job)
    ensures LegalLog(db, SendLead(rules, db, id, job).log)
  {
    var p := PhaseForStatus(db.leads[id].status);
    if p.Some? {
      SendCoreRuns(rules, db, id, p.value, job);
    }
  }

  lemma BindRuns(db: Db, id: LeadId, url: string, title: Option<string>)
    requires Consistent(db) && id in db.leads
    ensures Run(db, BindLog(db.leads[id], id, url, title)) == Some(Bound(db, id, url, title))
  {
    var w := Update(id, BoundRow(db.leads[id], url, title));
    RunOne(db, w);
  }

  /** And so does the send that follows a harvested listing. */
  lemma HarvestSendRuns(rules: Rules, db: Db, id: LeadId, url: string, title: Option<string>, job: Job)
    requires Consistent(db) && id in db.leads && JobFits(db, id, true, job)
    ensures LegalLog(db, HarvestSend(rules, db, id, url, title, job).log)
  {
    if GateReason(rules, db, id).None? {
      var b := Bound(db, id, url, title);
      BindingFits(db, id, url, title, job);
      OpenGateMeansUncontacted(rules, db, id);
      SendCoreRuns(rules, b, id, Phase1Cold, job);
      RunConcat(db, BindLog(db.leads[id], id, url, title), SendCore(rules, b, id, Phase1Cold, job).log);
    }
  }

  /** Attempts that write nothing leave the send to what follows them. */
  lemma CoreAfter(rules: Rules, db: Db, id: LeadId, job: Job, t: Tried, now: Db)
    requires id in db.leads && JobNames(db, job) && Attempts(rules, db, id, job) == t
    requires AfterAttempts(rules, db, id, job) == now
    requires t.log == []
    ensures SendCore(rules, db, id, Phase1Cold, job) == Tail(now, id, Phase1Cold, job, t.result)
  {
    var tail := Tail(now, id, Phase1Cold, job, t.result);
    assert [] + tail.log == tail.log;
  }

  lemma HarvestSendParts(rules: Rules, db: Db, id: LeadId, url: string, title: Option<string>, job: Job)
    requires id in db.leads && JobNames(db, job) && GateReason(rules, db, id).None?
    ensures var core := SendCore(rules, Bound(db, id, url, title), id, Phase1Cold, job);
      HarvestSend(rules, db, id, url, title, job)
          == Plan(BindLog(db.leads[id], id, url, title) + core.log, core.outcome)
  {
  }

  lemma BindingFits(db: Db, id: LeadId, url: string, title: Option<string>, job: Job)
    requires Consistent(db) && id in db.leads && JobFits(db, id, true, job)
    ensures var b := Bound(db, id, url, title);
      && Run(db, BindLog(db.leads[id], id, url, title)) == Some(b) && Consistent(b) && JobFits(b, id, true, job)
      && b.leads[id].status == db.leads[id].status
  {
    var b := Bound(db, id, url, title);
    BindRuns(db, id, url, title);
    RunKeepsIndices(db, BindLog(db.leads[id], id, url, title));
    FitsAfterBinding(db, b, id, job.first);
    FitsAfterBinding(db, b, id, job.second);
  }

  lemma FitsAfterBinding(db: Db, b: Db, id: LeadId, a: Attempt)
    requires id in db.leads && b.leads.Keys == db.leads.Keys
    requires forall k :: k in db.leads ==> b.leads[k].thread == db.leads[k].thread
    requires Fits(db, id, true, a)
    ensures Fits(b, id, true, a)
  {
    if a.Finds? && a.owner.None? && ParseThreadId(a.url).Some? {
      forall k | k in b.leads && k != id
        ensures !HoldsThreadNumber(b.leads[k], ParseThreadId(a.url).value)
      {
        assert !HoldsThreadNumber(db.leads[k], ParseThreadId(a.url).value);
      }
    }
  }
}
