/** What a send leaves in the tables, column by column: a found thread, a delivery, a noted failure. */
module SendEffects {
  import opened Records
  import opened Texts
  import opened Identity
  import opened Gate
  import opened Merge
  import opened Writes
  import opened Sync
  import opened Sending

  /** The columns that no send touches. */
  predicate SameProfile(l: Lead, r: Lead) {
    && r.host == l.host && r.url == l.url && r.listingName == l.listingName && r.company == l.company
    && r.total == l.total && r.superhost == l.superhost && r.market == l.market && r.icpSkip == l.icpSkip
    && r.createdAt == l.createdAt
  }

  // ---------- a found thread ----------

  predicate HostWrote(scraped: seq<Scraped>) {
    exists i :: 0 <= i < |scraped| && scraped[i].inbound
  }

  /** The row of a lead whose thread was found: a host that has answered leaves the template phases, one that has not
      is due for the second message, and a lead past discovery keeps its status. */
  predicate ClaimedThread(l: Lead, url: ThreadUrl, scraped: seq<Scraped>, now: Time, r: Lead) {
    && SameProfile(l, r) && r.thread == Some(url) && r.lastContacted == Some(now) && r.nextFollowUp == None
    && (l.status != LeadDiscovered ==> r.status == l.status)
    && (l.status == LeadDiscovered && HostWrote(scraped) ==>
      r.status == RepliedInProgress && PhaseForStatus(r.status) == None)
    && (l.status == LeadDiscovered && !HostWrote(scraped) ==>
      r.status == InitialMsgSent && PhaseForStatus(r.status) == Some(Phase2Ops))
  }

  /** The listings named in the thread point at the lead. */
  ghost predicate ListingsLinked(before: map<HostId, Alias>, listings: seq<string>, host: HostId, id: LeadId,
                                 after: map<HostId, Alias>) {
    && (forall i :: 0 <= i < |listings| && "manual:listing-" + listings[i] != host ==>
      "manual:listing-" + listings[i] in after && after["manual:listing-" + listings[i]] == Alias(host, Some(id)))
    && forall a :: (forall i :: 0 <= i < |listings| ==> a != "manual:listing-" + listings[i]) || a == host ==>
      (a in after <==> a in before) && (a in after ==> after[a] == before[a])
  }

  lemma {:induction false} LinkedAliasesMean(al: map<HostId, Alias>, listings: seq<string>, host: HostId, id: LeadId)
    ensures ListingsLinked(al, listings, host, id, LinkedAliases(al, listings, host, id))
  {
    if listings != [] {
      var front := listings[..|listings| - 1];
      LinkedAliasesMean(al, front, host, id);
      LinkOneMore(al, front, listings[|listings| - 1], host, id, LinkedAliases(al, front, host, id));
      assert listings == front + [listings[|listings| - 1]];
    }
  }

  lemma LinkOneMore(al: map<HostId, Alias>, front: seq<string>, x: string, host: HostId, id: LeadId,
                    mid: map<HostId, Alias>)
    requires ListingsLinked(al, front, host, id, mid)
    ensures ListingsLinked(al, front + [x], host, id,
      if ListingHostId(x) == host then mid else mid[ListingHostId(x) := Alias(host, Some(id))])
  {
    var all := front + [x];
    assert all[|front|] == x;
    forall i | 0 <= i < |front|
      ensures all[i] == front[i]
    {
    }
  }

  /** The ledger holds a row of the lead: the one it had, else this one; all others are as they were. */
  ghost predicate Noted(before: map<LeadId, Contact>, id: LeadId, contact: Contact, after: map<LeadId, Contact>) {
    && id in after && after[id] == (if id in before then before[id] else contact)
    && forall k :: k != id ==> (k in after <==> k in before) && (k in before ==> after[k] == before[k])
  }

  lemma MarkedLedger(db: Db, head: seq<Write>, now: Db, id: LeadId, contact: Contact)
    requires Run(db, head) == Some(now) && Consistent(now) && id in now.leads && contact.host == now.leads[id].host
    ensures LegalLog(db, head + MarkIfNew(now.contacts, id, contact))
    ensures var n := Replay(db, head + MarkIfNew(now.contacts, id, contact));
      n.leads == now.leads && n.aliases == now.aliases && n.messages == now.messages
      && Noted(now.contacts, id, contact, n.contacts)
  {
    MarkRuns(now, id, contact);
    RunConcat(db, head, MarkIfNew(now.contacts, id, contact));
    if id !in now.contacts {
      RunOne(now, Mark(id, contact));
    }
  }

  /** A thread nobody else holds: the lead claims it. */
  lemma FoundThreadIsClaimed(rules: Rules, db: Db, id: LeadId, ctx: Ctx, a: Attempt)
    requires Consistent(db) && id in db.leads && a.Finds? && OwnerAnswer(db, id, a.url, a.owner)
    requires a.owner == None && ThreadFree(db.leads, id, Some(a.url))
    ensures var t := FoundThread(rules, db, id, ctx, a); t.result == Existing && LegalLog(db, t.log)
    ensures var n, l := Replay(db, FoundThread(rules, db, id, ctx, a).log), db.leads[id];
      && id in n.leads && n.leads == db.leads[id := n.leads[id]]
      && ClaimedThread(l, a.url, a.scraped, ctx.now, n.leads[id])
      && Noted(db.contacts, id, Contact(l.host, ctx.now, Some(ctx.account), PresendGuard), n.contacts)
      && ListingsLinked(db.aliases, a.listings, l.host, id, n.aliases)
      && n.messages == db.messages + SyncedRows(rules, db.messages, id, a.scraped)
  {
    var l := db.leads[id];
    var head, h := HeadLog(rules, db, id, a.scraped, a.listings), HeadDb(rules, db, id, a.scraped, a.listings);
    HeadRuns(rules, db, id, a.scraped, a.listings);
    RunKeepsIndices(db, head);
    var w := Update(id, FoundRow(l, a.url, a.scraped, ctx.now));
    RunSnoc(db, head, w);
    WriteKeepsIndices(h, w);
    MarkedLedger(db, head + [w], Apply(h, w), id, GuardContact(l, ctx));
    LinkedAliasesMean(db.aliases, a.listings, l.host, id);
    RowIsClaimed(l, a.url, a.scraped, ctx.now);
  }

  lemma RowIsClaimed(l: Lead, url: ThreadUrl, scraped: seq<Scraped>, now: Time)
    ensures ClaimedThread(l, url, scraped, now, FoundRow(l, url, scraped, now))
  {
  }

  /** The lead has yielded to the owner: it is gone, the owner has taken over what it lacked and is on the ledger - with
      its own row, else with the lead's, else with this one - and the lead's host id points at the owner. */
  ghost predicate Yielded(leads: map<LeadId, Lead>, contacts: map<LeadId, Contact>, k: LeadId, id: LeadId,
                          contact: Contact, n: Db)
    requires k in leads && id in leads
  {
    && id !in n.leads && k in n.leads && Inherits(leads[k], leads[id], n.leads[k])
    && (forall j :: j != id && j != k ==> (j in n.leads <==> j in leads) && (j in leads ==> n.leads[j] == leads[j]))
    && k in n.contacts
    && (k in contacts ==> n.contacts[k] == contacts[k])
    && (k !in contacts && id in contacts ==> n.contacts[k] == contacts[id].(host := leads[k].host))
    && (k !in contacts && id !in contacts ==> n.contacts[k] == contact)
    && (leads[id].host != leads[k].host ==>
      leads[id].host in n.aliases && n.aliases[leads[id].host] == Alias(leads[k].host, Some(k)))
  }

  lemma MergeYields(h: Db, k: LeadId, id: LeadId, contact: Contact, n: Db)
    requires k in h.leads && id in h.leads && k != id
    requires var m := Merged(h, k, id);
      n.leads == m.leads && n.aliases == m.aliases && Noted(m.contacts, k, contact, n.contacts)
    ensures Yielded(h.leads, h.contacts, k, id, contact, n)
  {
    SurvivorInherits(h, k, id);
  }

  lemma AbsorbedAndMarked(db: Db, head: seq<Write>, h: Db, k: LeadId, id: LeadId, contact: Contact)
    requires Run(db, head) == Some(h) && Consistent(h) && k in h.leads && id in h.leads && k != id
    requires MergeCommits(h, k, id) && contact.host == h.leads[k].host
    ensures var log := head + [Absorb(k, id)] + MarkIfNew(MergedContacts(h, k, id), k, contact);
      LegalLog(db, log) && Yielded(h.leads, h.contacts, k, id, contact, Replay(db, log))
      && Replay(db, log).messages == Relabel(h.messages, id, k)
  {
    var w := Absorb(k, id);
    RunSnoc(db, head, w);
    WriteKeepsIndices(h, w);
    MarkedLedger(db, head + [w], Merged(h, k, id), k, contact);
    MergeYields(h, k, id, contact, Replay(db, head + [w] + MarkIfNew(Merged(h, k, id).contacts, k, contact)));
  }

  /** A thread of another lead: this lead is merged into it, and the owner has the messages of both and the new ones of
      the thread. */
  lemma FoundThreadIsYielded(rules: Rules, db: Db, id: LeadId, ctx: Ctx, a: Attempt, k: LeadId)
    requires Consistent(db) && id in db.leads && a.Finds? && OwnerAnswer(db, id, a.url, a.owner) && a.owner == Some(k)
    ensures var t := FoundThread(rules, db, id, ctx, a); t.result == Existing && LegalLog(db, t.log)
    ensures Yielded(db.leads, db.contacts, k, id,
      Contact(db.leads[k].host, ctx.now, Some(ctx.account), PresendGuard),
      Replay(db, FoundThread(rules, db, id, ctx, a).log))
    ensures Replay(db, FoundThread(rules, db, id, ctx, a).log).messages
      == Relabel(db.messages + SyncedRows(rules, db.messages, k, a.scraped), id, k)
  {
    var head, h := HeadLog(rules, db, k, a.scraped, a.listings), HeadDb(rules, db, k, a.scraped, a.listings);
    HeadRuns(rules, db, k, a.scraped, a.listings);
    RunKeepsIndices(db, head);
    OwnersMerge(db, k, id);
    AbsorbedAndMarked(db, head, h, k, id, GuardContact(db.leads[k], ctx));
  }

  /** A thread without a known owner whose URL another lead holds: nothing but messages and aliases is written. */
  lemma FoundThreadIsRefused(rules: Rules, db: Db, id: LeadId, ctx: Ctx, a: Attempt)
    requires Consistent(db) && id in db.leads && a.Finds? && OwnerAnswer(db, id, a.url, a.owner)
    requires a.owner == None && !ThreadFree(db.leads, id, Some(a.url))
    ensures var t := FoundThread(rules, db, id, ctx, a); t.result == Failed && LegalLog(db, t.log)
    ensures var n := Replay(db, FoundThread(rules, db, id, ctx, a).log);
      && n.leads == db.leads && n.contacts == db.contacts
      && ListingsLinked(db.aliases, a.listings, db.leads[id].host, id, n.aliases)
      && n.messages == db.messages + SyncedRows(rules, db.messages, id, a.scraped)
  {
    FoundThreadRuns(rules, db, id, ctx, a);
    LinkedAliasesMean(db.aliases, a.listings, db.leads[id].host, id);
  }

  // ---------- a delivery ----------

  /** The row after a delivered template: the next status of the phase, the thread, and the day of the next message,
      none after the last one. */
  predicate MovedOn(l: Lead, p: Phase, thread: ThreadUrl, ctx: Ctx, r: Lead) {
    && SameProfile(l, r) && r.thread == Some(thread) && r.lastContacted == Some(ctx.now)
    && (p == Phase1Cold ==> r.status == InitialMsgSent && PhaseForStatus(r.status) == Some(Phase2Ops))
    && (p == Phase2Ops ==> r.status == FollowUp1Sent && PhaseForStatus(r.status) == Some(Phase3Bi))
    && (p == Phase3Bi ==> r.status == FollowUp2Sent && PhaseForStatus(r.status) == Some(Phase4Breakup))
    && (p == Phase4Breakup ==> r.status == ClosedLost && PhaseForStatus(r.status) == None && r.nextFollowUp == None)
    && (p != Phase4Breakup ==> r.nextFollowUp == Some(ctx.now + ctx.delay(p) * 86_400_000))
  }

  /** The message put on record. */
  predicate SaysTemplate(m: Message, id: LeadId, p: Phase, text: string) {
    && m.lead == id && m.direction == Outbound && m.content == text
    && (p == Phase1Cold ==> m.intent == Some("PHASE_1_COLD"))
    && (p == Phase2Ops ==> m.intent == Some("PHASE_2_OPS"))
    && (p == Phase3Bi ==> m.intent == Some("PHASE_3_BI"))
    && (p == Phase4Breakup ==> m.intent == Some("PHASE_4_BREAKUP"))
  }

  /** One message more, all others as they were. */
  predicate OneMore(before: seq<Message>, after: seq<Message>) {
    |after| == |before| + 1 && after[..|before|] == before
  }

  lemma RowMovesOn(l: Lead, p: Phase, thread: ThreadUrl, ctx: Ctx)
    ensures MovedOn(l, p, thread, ctx, AdvancedRow(l, p, thread, ctx))
  {
  }

  /** The tables between the transition and the ledger. */
  lemma AdvancedStore(db: Db, id: LeadId, p: Phase, thread: ThreadUrl, ctx: Ctx) returns (now: Db)
    requires Consistent(db) && id in db.leads && PhaseForStatus(db.leads[id].status) == Some(p)
    requires ThreadFree(db.leads, id, Some(thread))
    ensures Run(db, [Say(TemplateMessage(id, p, ctx))] + [Update(id, AdvancedRow(db.leads[id], p, thread, ctx))])
      == Some(now) && Consistent(now)
    ensures id in now.leads && now.leads == db.leads[id := now.leads[id]]
    ensures MovedOn(db.leads[id], p, thread, ctx, now.leads[id])
    ensures OneMore(db.messages, now.messages) && SaysTemplate(now.messages[|db.messages|], id, p, ctx.text)
    ensures now.aliases == db.aliases && now.contacts == db.contacts
  {
    AdvanceRuns(db, id, p, thread, ctx);
    RowMovesOn(db.leads[id], p, thread, ctx);
    now := db.(messages := db.messages + [TemplateMessage(id, p, ctx)],
               leads := db.leads[id := AdvancedRow(db.leads[id], p, thread, ctx)]);
    assert OneMore(db.messages, now.messages);
  }

  /** Delivered and seen: the record, the lead's next status and, for a first message, the ledger row. */
  ghost predicate Delivered(db: Db, id: LeadId, p: Phase, thread: ThreadUrl, ctx: Ctx, n: Db)
    requires id in db.leads
  {
    && id in n.leads && n.leads == db.leads[id := n.leads[id]] && MovedOn(db.leads[id], p, thread, ctx, n.leads[id])
    && OneMore(db.messages, n.messages) && SaysTemplate(n.messages[|db.messages|], id, p, ctx.text)
    && n.aliases == db.aliases
    && (p == Phase1Cold ==>
      Noted(db.contacts, id, Contact(db.leads[id].host, ctx.now, Some(ctx.account), FromOutbound), n.contacts))
    && (p != Phase1Cold ==> n.contacts == db.contacts)
  }

  /** A delivery whose thread no other lead holds. */
  lemma DeliveryMovesOn(db: Db, id: LeadId, p: Phase, thread: ThreadUrl, ctx: Ctx)
    requires Consistent(db) && id in db.leads && PhaseForStatus(db.leads[id].status) == Some(p)
    requires ThreadFree(db.leads, id, Some(thread))
    ensures var plan := Deliver(db, id, p, thread, ctx); plan.outcome == WasSent && LegalLog(db, plan.log)
    ensures Delivered(db, id, p, thread, ctx, Replay(db, Deliver(db, id, p, thread, ctx).log))
  {
    var l := db.leads[id];
    var contact := Contact(l.host, ctx.now, Some(ctx.account), FromOutbound);
    var head := [Say(TemplateMessage(id, p, ctx))] + [Update(id, AdvancedRow(l, p, thread, ctx))];
    var now := AdvancedStore(db, id, p, thread, ctx);
    MarkedIfCold(db, head, now, id, contact, p == Phase1Cold);
    assert Deliver(db, id, p, thread, ctx)
      == Plan(head + if p == Phase1Cold then MarkIfNew(now.contacts, id, contact) else [], WasSent);
  }

  lemma MarkedIfCold(db: Db, head: seq<Write>, now: Db, id: LeadId, contact: Contact, cold: bool)
    requires Run(db, head) == Some(now) && Consistent(now) && id in now.leads && contact.host == now.leads[id].host
    ensures LegalLog(db, head + if cold then MarkIfNew(now.contacts, id, contact) else [])
    ensures var n := Replay(db, head + if cold then MarkIfNew(now.contacts, id, contact) else []);
      && n.leads == now.leads && n.aliases == now.aliases && n.messages == now.messages
      && (cold ==> Noted(now.contacts, id, contact, n.contacts)) && (!cold ==> n.contacts == now.contacts)
  {
    if cold {
      MarkedLedger(db, head, now, id, contact);
    } else {
      assert head + [] == head;
    }
  }

  /** A delivery whose thread another lead holds is on record all the same, and nothing else is written. */
  lemma RefusedDeliveryIsOnRecord(db: Db, id: LeadId, p: Phase, thread: ThreadUrl, ctx: Ctx)
    requires Consistent(db) && id in db.leads && PhaseForStatus(db.leads[id].status) == Some(p)
    requires !ThreadFree(db.leads, id, Some(thread))
    ensures var plan := Deliver(db, id, p, thread, ctx); plan.outcome == Threw && LegalLog(db, plan.log)
    ensures var n := Replay(db, Deliver(db, id, p, thread, ctx).log);
      && n == db.(messages := n.messages)
      && OneMore(db.messages, n.messages) && SaysTemplate(n.messages[|db.messages|], id, p, ctx.text)
  {
    TemplateIsLegal(db, id, p, ctx);
    RunOne(db, Say(TemplateMessage(id, p, ctx)));
  }

  // ---------- a failure ----------

  predicate NotesFailure(m: Message, id: LeadId) {
    m.lead == id && m.direction == System && m.intent == Some("COLD_SEND_FAILURE")
  }

  lemma {:induction false} FailuresAreCounted(ms: seq<Message>, id: LeadId)
    ensures CountFailures(ms, id) == |set i | 0 <= i < |ms| && NotesFailure(ms[i], id)|
  {
    var all := set i | 0 <= i < |ms| && NotesFailure(ms[i], id);
    if ms == [] {
      assert all == {};
    } else {
      var last, front := |ms| - 1, ms[..|ms| - 1];
      FailuresAreCounted(front, id);
      var earlier := set i | 0 <= i < |front| && NotesFailure(front[i], id);
      assert all == earlier + if NotesFailure(ms[last], id) then {last} else {};
    }
  }

  /** A cold send that failed is noted; with the note that reaches the cap a lead still in discovery is given up: it is
      closed and nothing is due. */
  ghost predicate FailureNoted(db: Db, id: LeadId, text: string, maxFailures: int, n: Db)
    requires id in db.leads
  {
    && OneMore(db.messages, n.messages) && NotesFailure(n.messages[|db.messages|], id)
    && n.messages[|db.messages|].content == text
    && n.aliases == db.aliases && n.contacts == db.contacts
    && id in n.leads && n.leads == db.leads[id := n.leads[id]]
    && (if |set i | 0 <= i < |n.messages| && NotesFailure(n.messages[i], id)| >= maxFailures
            && db.leads[id].status == LeadDiscovered
        then n.leads[id] == db.leads[id].(status := ClosedLost, nextFollowUp := None)
        else n.leads[id] == db.leads[id])
  }

  lemma FailureIsNoted(db: Db, id: LeadId, text: string, maxFailures: int)
    requires Consistent(db) && id in db.leads
    ensures LegalLog(db, FailureLog(db, id, text, maxFailures))
    ensures FailureNoted(db, id, text, maxFailures, Replay(db, FailureLog(db, id, text, maxFailures)))
  {
    FailureRuns(db, id, text, maxFailures);
    var note := FailureNote(id, text);
    var log := FailureLog(db, id, text, maxFailures);
    RunOne(db, Say(note));
    var said := db.(messages := db.messages + [note]);
    FailuresAreCounted(said.messages, id);
    assert said.messages[..|said.messages| - 1] == db.messages;
    assert db.leads[id := db.leads[id]] == db.leads;
    if |log| == 2 {
      RunSnoc(db, [Say(note)], log[1]);
      assert log == [Say(note)] + [log[1]];
    }
  }

  // ---------- the harvested listing ----------

  /** Binding a lead to its listing: the URL is the one harvested, the name the title if there is one, and nothing is
      written when they are so already. */
  lemma BindingMoves(db: Db, id: LeadId, url: string, title: Option<string>)
    requires Consistent(db) && id in db.leads
    ensures LegalLog(db, BindLog(db.leads[id], id, url, title))
    ensures var n, l := Replay(db, BindLog(db.leads[id], id, url, title)), db.leads[id];
      && id in n.leads && n.leads[id].url == url
      && (title.Some? ==> n.leads[id].listingName == title)
      && (title.None? ==> n.leads[id].listingName == l.listingName)
      && n.leads[id] == l.(url := n.leads[id].url, listingName := n.leads[id].listingName)
      && n == db.(leads := db.leads[id := n.leads[id]])
      && (BindLog(l, id, url, title) == [] <==> n.leads[id] == l)
  {
    BindRuns(db, id, url, title);
    assert db.leads[id := db.leads[id]] == db.leads;
  }

  // ---------- the outcome ----------

  /** The attempt gives up without having been blocked: it breaks, or finds a thread without a known owner whose URL
      another lead holds. */
  predicate GivesUp(db: Db, id: LeadId, a: Attempt) {
    a.Breaks? || (a.Finds? && a.owner == None && !ThreadFree(db.leads, id, Some(a.url)))
  }

  /** What is reported of a send, from the answer to its first attempt or, if that gave up, to the second. */
  predicate Reports(db: Db, id: LeadId, last: Attempt, outcome: Outcome) {
    match last
    case Blocks(b, _) => outcome == WasBlocked(b)
    case Delivers(t) => outcome == if ThreadFree(db.leads, id, Some(t)) then WasSent else Threw
    case Finds(_, _, _, _) => outcome == if GivesUp(db, id, last) then WasFailed else WasSkipped
    case _ => outcome == WasFailed
  }

  lemma TryMeans(rules: Rules, db: Db, id: LeadId, ctx: Ctx, cold: bool, a: Attempt)
    requires Consistent(db) && id in db.leads && Fits(db, id, cold, a)
    ensures var r := TryOnce(rules, db, id, ctx, a).result;
      && (r == Failed <==> GivesUp(db, id, a)) && (r == Existing <==> a.Finds? && !GivesUp(db, id, a))
      && (r == Unreachable <==> a == Uncontactable) && (a.Blocks? ==> r == Blocked(a.block))
      && (a.Delivers? ==> r == Sent(a.thread))
  {
    if a.Finds? {
      FoundThreadRuns(rules, db, id, ctx, a);
    }
  }

  /** The same of both attempts, with the one that decides. */
  lemma AttemptsMean(rules: Rules, db: Db, id: LeadId, cold: bool, job: Job)
    requires Consistent(db) && id in db.leads && JobFits(db, id, cold, job)
    ensures var r, last := Attempts(rules, db, id, job).result, if GivesUp(db, id, job.first) then job.second
          else job.first;
      && (r == Failed <==> GivesUp(db, id, last)) && (r == Existing <==> last.Finds? && !GivesUp(db, id, last))
      && (r == Unreachable <==> last == Uncontactable) && (last.Blocks? ==> r == Blocked(last.block))
      && (last.Delivers? ==> r == Sent(last.thread))
  {
    TryMeans(rules, db, id, job.ctx, cold, job.first);
    if GivesUp(db, id, job.first) {
      var between := AfterFailure(rules, db, id, job.first);
      TryRuns(rules, db, id, job.ctx, cold, job.first);
      RunKeepsIndices(db, TryOnce(rules, db, id, job.ctx, job.first).log);
      assert Fits(between, id, cold, job.second);
      TryMeans(rules, between, id, job.ctx, cold, job.second);
    }
  }

  /** The outcome of a send behind the gate. */
  lemma CoreReports(rules: Rules, db: Db, id: LeadId, p: Phase, job: Job)
    requires Consistent(db) && id in db.leads && PhaseForStatus(db.leads[id].status) == Some(p)
    requires JobFits(db, id, db.leads[id].status.LeadDiscovered?, job)
    ensures Reports(db, id, if GivesUp(db, id, job.first) then job.second else job.first,
      SendCore(rules, db, id, p, job).outcome)
  {
    AttemptsMean(rules, db, id, db.leads[id].status.LeadDiscovered?, job);
  }

  /** What a send behind the gate leaves behind, from the tables `mid` after its attempts, whose leads and ledger are as
      they were: a delivery that was seen is entered, a cold failure is noted, and a block or a failed follow-up writes
      nothing more. */
  ghost predicate SendLeaves(mid: Db, id: LeadId, p: Phase, last: Attempt, job: Job, outcome: Outcome, n: Db)
    requires id in mid.leads
  {
    && (outcome == WasSent ==> last.Delivers? && Delivered(mid, id, p, last.thread, job.ctx, n))
    && (outcome == WasFailed && p == Phase1Cold ==> FailureNoted(mid, id, job.error, job.ctx.maxFailures, n))
    && (outcome == WasFailed && p != Phase1Cold ==> n == mid)
    && (outcome.WasBlocked? ==> n == mid)
  }

  lemma CoreLeaves(rules: Rules, db: Db, id: LeadId, p: Phase, job: Job)
    requires Consistent(db) && id in db.leads && PhaseForStatus(db.leads[id].status) == Some(p)
    requires JobFits(db, id, db.leads[id].status.LeadDiscovered?, job)
    ensures LegalLog(db, SendCore(rules, db, id, p, job).log)
    ensures var mid, core := AfterAttempts(rules, db, id, job), SendCore(rules, db, id, p, job);
      && mid.leads == db.leads && mid.contacts == db.contacts
      && SendLeaves(mid, id, p, if GivesUp(db, id, job.first) then job.second else job.first, job, core.outcome,
        Replay(db, core.log))
  {
    var cold := db.leads[id].status.LeadDiscovered?;
    SendCoreRuns(rules, db, id, p, job);
    AttemptsMean(rules, db, id, cold, job);
    AttemptsRun(rules, db, id, cold, job);
    var t, mid := Attempts(rules, db, id, job), AfterAttempts(rules, db, id, job);
    if !t.result.Existing? {
      RunKeepsIndices(db, t.log);
      TailLeaves(mid, id, p, job, t.result);
      RunConcat(db, t.log, Tail(mid, id, p, job, t.result).log);
    }
  }

  lemma TailLeaves(mid: Db, id: LeadId, p: Phase, job: Job, result: Result)
    requires Consistent(mid) && id in mid.leads && PhaseForStatus(mid.leads[id].status) == Some(p)
    requires !result.Existing?
    ensures var tail := Tail(mid, id, p, job, result);
      && LegalLog(mid, tail.log)
      && (tail.outcome == WasSent ==>
        result.Sent? && Delivered(mid, id, p, result.thread, job.ctx, Replay(mid, tail.log)))
      && (tail.outcome == WasFailed && p == Phase1Cold ==>
        FailureNoted(mid, id, job.error, job.ctx.maxFailures, Replay(mid, tail.log)))
      && (tail.outcome == WasFailed && p != Phase1Cold ==> Replay(mid, tail.log) == mid)
      && (tail.outcome.WasBlocked? ==> Replay(mid, tail.log) == mid)
  {
    FailureIsNoted(mid, id, job.error, job.ctx.maxFailures);
    if result.Sent? {
      if ThreadFree(mid.leads, id, Some(result.thread)) {
        DeliveryMovesOn(mid, id, p, result.thread, job.ctx);
      } else {
        RefusedDeliveryIsOnRecord(mid, id, p, result.thread, job.ctx);
      }
    }
  }

  /** Who is written to by the outbound job: a lead in discovery behind an open gate, and a lead in a later template
      phase; the others are skipped without a trace. */
  lemma SendReports(rules: Rules, db: Db, id: LeadId, job: Job)
    requires Consistent(db) && id in db.leads
    requires JobFits(db, id, db.leads[id].status.LeadDiscovered?, job)
    ensures var s, plan := db.leads[id].status, SendLead(rules, db, id, job);
      if (s == LeadDiscovered && GateReason(rules, db, id) == None)
        || s == InitialMsgSent || s == FollowUp1Sent || s == FollowUp2Sent
      then Reports(db, id, if GivesUp(db, id, job.first) then job.second else job.first, plan.outcome)
      else plan == Plan([], WasSkipped)
  {
    var p := PhaseForStatus(db.leads[id].status);
    if p.Some? {
      CoreReports(rules, db, id, p.value, job);
    }
  }

  /** The same of the send that follows a harvested listing, whose gate is asked whatever the status: behind a closed
      gate nothing is written. */
  lemma HarvestReports(rules: Rules, db: Db, id: LeadId, url: string, title: Option<string>, job: Job)
    requires Consistent(db) && id in db.leads && JobFits(db, id, true, job)
    ensures var plan := HarvestSend(rules, db, id, url, title, job);
      if GateReason(rules, db, id) == None
      then Reports(db, id, if GivesUp(db, id, job.first) then job.second else job.first, plan.outcome)
      else plan == Plan([], WasSkipped)
  {
    if GateReason(rules, db, id) == None {
      OpenGateMeansUncontacted(rules, db, id);
      HarvestSendParts(rules, db, id, url, title, job);
      BoundReports(rules, db, id, Bound(db, id, url, title), url, title, job);
    }
  }

  lemma BoundReports(rules: Rules, db: Db, id: LeadId, b: Db, url: string, title: Option<string>, job: Job)
    requires Consistent(db) && id in db.leads && JobFits(db, id, true, job)
    requires db.leads[id].status == LeadDiscovered && b == Bound(db, id, url, title)
    ensures Reports(db, id, if GivesUp(db, id, job.first) then job.second else job.first,
      SendCore(rules, b, id, Phase1Cold, job).outcome)
  {
    BindingFits(db, id, url, title, job);
    CoreReports(rules, b, id, Phase1Cold, job);
    SameThreads(db, b, id, job.first);
    SameThreads(db, b, id, job.second);
  }

  lemma SameThreads(db: Db, b: Db, id: LeadId, a: Attempt)
    requires b.leads.Keys == db.leads.Keys && forall k :: k in db.leads ==> b.leads[k].thread == db.leads[k].thread
    ensures forall t: Option<ThreadUrl> :: ThreadFree(b.leads, id, t) <==> ThreadFree(db.leads, id, t)
    ensures GivesUp(b, id, a) <==> GivesUp(db, id, a)
    ensures forall outcome :: Reports(b, id, a, outcome) <==> Reports(db, id, a, outcome)
  {
    forall t: Option<ThreadUrl>
      ensures ThreadFree(b.leads, id, t) <==> ThreadFree(db.leads, id, t)
    {
      if ThreadFree(b.leads, id, t) {
        assert forall k :: k in db.leads ==> k in b.leads;
      }
    }
  }
}
