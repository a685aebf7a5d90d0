/** The send jobs as they run against the database. Every contract says: the tables end up exactly where the job's
    log of writes takes them, and every write of that log was accepted. */
module SendMethods {
  import opened Records
  import opened Identity
  import opened Gate
  import opened Merge
  import opened Writes
  import opened Sync
  import opened Sending
  import opened Store
  import opened ClusterMethods
  import SendEffects

  /** One scraped message: recorded unless it is noise or already stored. */
  method SyncMessage(db: Database, rules: Rules, id: LeadId, s: Scraped) returns (created: bool)
    requires id in db.leads
    modifies db`messages
    ensures db.messages == old(db.messages) + NewRow(rules, old(db.messages), id, s)
    ensures created <==> NewRow(rules, old(db.messages), id, s) != []
  {
    var content := rules.trim(s.content);
    if |content| < 2 || rules.noise(content) || Stored(rules, db.messages, id, DirectionOf(s),
        rules.normalize(content)) {
      return false;
    }
    created := db.CreateMessage(RowFor(rules, id, s));
  }

  /** One more scraped message: the rows added and the two counters. */
  lemma SyncedStep(rules: Rules, ms: seq<Message>, id: LeadId, scraped: seq<Scraped>, i: nat)
    requires i < |scraped|
    ensures var front, next := SyncedRows(rules, ms, id, scraped[..i]), SyncedRows(rules, ms, id, scraped[..i + 1]);
      var row := NewRow(rules, ms + front, id, scraped[i]);
      && ms + next == (ms + front) + row
      && CountDir(next, Inbound) == CountDir(front, Inbound) + (if row != [] && scraped[i].inbound then 1 else 0)
      && CountDir(next, Outbound) == CountDir(front, Outbound) + (if row != [] && !scraped[i].inbound then 1 else 0)
  {
    assert scraped[..i + 1][..i] == scraped[..i];
    var front := SyncedRows(rules, ms, id, scraped[..i]);
    CountAppend(rules, front, RowFor(rules, id, scraped[i]), Inbound, "");
    CountAppend(rules, front, RowFor(rules, id, scraped[i]), Outbound, "");
    assert front + [] == front;
    assert ms + (front + NewRow(rules, ms + front, id, scraped[i]))
        == (ms + front) + NewRow(rules, ms + front, id, scraped[i]);
  }

  /** `syncThreadMessages`. */
  method SyncThreadMessages(db: Database, rules: Rules, id: LeadId, scraped: seq<Scraped>)
    returns (inboundNew: nat, outboundSynced: nat, hostReplied: bool)
    requires id in db.leads
    modifies db`messages
    ensures db.messages == old(db.messages) + SyncedRows(rules, old(db.messages), id, scraped)
    ensures inboundNew == CountDir(SyncedRows(rules, old(db.messages), id, scraped), Inbound)
    ensures outboundSynced == CountDir(SyncedRows(rules, old(db.messages), id, scraped), Outbound)
    ensures hostReplied <==> inboundNew > 0
  {
    inboundNew, outboundSynced, hostReplied := 0, 0, false;
    ghost var ms, rows := db.messages, [];
    var i := 0;
    while i < |scraped|
      invariant 0 <= i <= |scraped|
      invariant rows == SyncedRows(rules, ms, id, scraped[..i])
      invariant db.messages == ms + rows
      invariant inboundNew == CountDir(rows, Inbound) && outboundSynced == CountDir(rows, Outbound)
      invariant hostReplied <==> inboundNew > 0
    {
      SyncedStep(rules, ms, id, scraped, i);
      var created := SyncMessage(db, rules, id, scraped[i]);
      rows := SyncedRows(rules, ms, id, scraped[..i + 1]);
      if created && scraped[i].inbound {
        inboundNew := inboundNew + 1;
        hostReplied := true;
      } else if created {
        outboundSynced := outboundSynced + 1;
      }
      i := i + 1;
    }
    assert scraped[..i] == scraped;
  }

  /** One alias per listing named in the thread. */
  method RegisterListings(db: Database, listings: seq<string>, host: HostId, lead: LeadId)
    modifies db`aliases
    ensures db.aliases == LinkedAliases(old(db.aliases), listings, host, lead)
  {
    var i := 0;
    while i < |listings|
      invariant 0 <= i <= |listings|
      invariant db.aliases == LinkedAliases(old(db.aliases), listings[..i], host, lead)
    {
      assert listings[..i + 1][..i] == listings[..i];
      db.RegisterIdentityAlias(ListingHostId(listings[i]), host, Some(lead));
      i := i + 1;
    }
    assert listings[..i] == listings;
  }

  /** Messages and aliases of a found thread, onto the lead that keeps it. */
  method SyncOntoLead(db: Database, rules: Rules, target: LeadId, scraped: seq<Scraped>, listings: seq<string>)
    requires db.Valid() && target in db.leads
    modifies db
    ensures db.Snapshot() == HeadDb(rules, old(db.Snapshot()), target, scraped, listings) && db.Valid()
    ensures Run(old(db.Snapshot()), HeadLog(rules, old(db.Snapshot()), target, scraped, listings))
      == Some(db.Snapshot())
  {
    ghost var start := db.Snapshot();
    HeadRuns(rules, start, target, scraped, listings);
    RunKeepsIndices(start, HeadLog(rules, start, target, scraped, listings));
    var n, o, r := SyncThreadMessages(db, rules, target, scraped);
    RegisterListings(db, listings, db.leads[target].host, target);
  }

  /** The ledger row of the pre-send guard, continuing a log that led to the present tables. */
  method MarkByGuard(db: Database, ghost start: Db, ghost log: seq<Write>, id: LeadId, contact: Contact)
    returns (ok: bool)
    requires Run(start, log) == Some(db.Snapshot()) && db.Valid() && id in db.leads && contact.host == db.leads[id].host
    modifies db`contacts
    ensures ok
    ensures Run(start, log + MarkIfNew(old(db.contacts), id, contact)) == Some(db.Snapshot())
  {
    MarkRuns(db.Snapshot(), id, contact);
    RunSnoc(start, log, Mark(id, contact));
    assert log + [] == log;
    if id !in db.contacts {
      RunOne(db.Snapshot(), Mark(id, contact));
    }
    ok := db.MarkHostContacted(id, contact);
  }

  /** The thread belongs to another lead: this one is merged into it. */
  method YieldToOwner(db: Database, ghost start: Db, ghost head: seq<Write>, k: LeadId, id: LeadId, ctx: Ctx)
    returns (ok: bool)
    requires Run(start, head) == Some(db.Snapshot()) && db.Valid()
    requires k in db.leads && id in db.leads && k != id && MergeCommits(db.Snapshot(), k, id)
    modifies db
    ensures ok
    ensures Run(start, head + [Absorb(k, id)] + MarkIfNew(MergedContacts(old(db.Snapshot()), k, id), k,
      GuardContact(old(db.leads)[k], ctx)))
         == Some(db.Snapshot())
  {
    RunSnoc(start, head, Absorb(k, id));
    WriteKeepsIndices(db.Snapshot(), Absorb(k, id));
    var contact := GuardContact(db.leads[k], ctx);
    ok := db.MergeLeadIntoCanonical(k, id);
    ok := MarkByGuard(db, start, head + [Absorb(k, id)], k, contact);
  }

  /** The lead claims the thread, which fails when another lead holds its URL. */
  method ClaimThread(db: Database, ghost start: Db, ghost head: seq<Write>, id: LeadId, ctx: Ctx, a: Attempt)
    returns (ok: bool)
    requires Run(start, head) == Some(db.Snapshot()) && db.Valid() && id in db.leads && a.Finds?
    modifies db
    ensures ok <==> ThreadFree(old(db.leads), id, Some(a.url))
    ensures !ok ==> db.Snapshot() == old(db.Snapshot())
    ensures ok ==> Run(start, head + [Update(id, FoundRow(old(db.leads)[id], a.url, a.scraped, ctx.now))]
                              + MarkIfNew(old(db.contacts), id,
                                  GuardContact(old(db.leads)[id], ctx))) == Some(db.Snapshot())
  {
    var row := FoundRow(db.leads[id], a.url, a.scraped, ctx.now);
    var contact := GuardContact(db.leads[id], ctx);
    ghost var before := db.Snapshot();
    ok := db.UpdateLead(id, row);
    if ok {
      RunSnoc(start, head, Update(id, row));
      WriteKeepsIndices(before, Update(id, row));
      ok := MarkByGuard(db, start, head + [Update(id, row)], id, contact);
    }
  }

  /** `syncExistingColdThread`; the owner query was answered with `a.owner`. */
  method SyncExistingColdThread(db: Database, rules: Rules, id: LeadId, ctx: Ctx, a: Attempt) returns (ok: bool)
    requires db.Valid() && id in db.leads && a.Finds? && OwnerAnswer(db.Snapshot(), id, a.url, a.owner)
    modifies db
    ensures ok <==> !FoundThread(rules, old(db.Snapshot()), id, ctx, a).result.Failed?
    ensures Run(old(db.Snapshot()), FoundThread(rules, old(db.Snapshot()), id, ctx, a).log) == Some(db.Snapshot())
    ensures a.owner.None? && ThreadFree(old(db.leads), id, Some(a.url)) ==>
      ok && id in db.leads
      && SendEffects.ClaimedThread(old(db.leads)[id], a.url, a.scraped, ctx.now, db.leads[id])
    ensures a.owner.None? && !ThreadFree(old(db.leads), id, Some(a.url)) ==>
      !ok && db.leads == old(db.leads) && db.contacts == old(db.contacts)
    ensures a.owner.Some? ==>
      ok && SendEffects.Yielded(old(db.leads), old(db.contacts), a.owner.value, id,
        Contact(old(db.leads)[a.owner.value].host, ctx.now, Some(ctx.account), PresendGuard), db.Snapshot())
  {
    ghost var start := db.Snapshot();
    if a.owner.Some? {
      SendEffects.FoundThreadIsYielded(rules, start, id, ctx, a, a.owner.value);
    } else if ThreadFree(db.leads, id, Some(a.url)) {
      SendEffects.FoundThreadIsClaimed(rules, start, id, ctx, a);
    } else {
      SendEffects.FoundThreadIsRefused(rules, start, id, ctx, a);
    }
    var target := if a.owner.Some? then a.owner.value else id;
    ghost var head := HeadLog(rules, start, target, a.scraped, a.listings);
    SyncOntoLead(db, rules, target, a.scraped, a.listings);
    if a.owner.Some? {
      OwnersMerge(start, target, id);
      ok := YieldToOwner(db, start, head, target, id, ctx);
    } else {
      ok := ClaimThread(db, start, head, id, ctx, a);
    }
  }

  /** One attempt: only a found thread writes. */
  method TrySend(db: Database, rules: Rules, id: LeadId, ctx: Ctx, ghost cold: bool, a: Attempt) returns (r: Result)
    requires db.Valid() && id in db.leads && Fits(db.Snapshot(), id, cold, a)
    modifies db
    ensures r == TryOnce(rules, old(db.Snapshot()), id, ctx, a).result
    ensures Run(old(db.Snapshot()), TryOnce(rules, old(db.Snapshot()), id, ctx, a).log) == Some(db.Snapshot())
  {
    match a
    case Blocks(b, _) => r := Blocked(b);
    case Delivers(t) => r := Sent(t);
    case Uncontactable => r := Unreachable;
    case Breaks(_) => r := Failed;
    case Finds(_, _, _, _) =>
      var ok := SyncExistingColdThread(db, rules, id, ctx, a);
      r := if ok then Existing else Failed;
  }

  /** The attempt and its one retry. */
  method SendTwice(db: Database, rules: Rules, id: LeadId, ghost cold: bool, job: Job) returns (r: Result)
    requires db.Valid() && id in db.leads && JobFits(db.Snapshot(), id, cold, job)
    modifies db
    ensures r == Attempts(rules, old(db.Snapshot()), id, job).result
    ensures Run(old(db.Snapshot()), Attempts(rules, old(db.Snapshot()), id, job).log) == Some(db.Snapshot())
    ensures !r.Existing? ==> db.Snapshot() == AfterAttempts(rules, old(db.Snapshot()), id, job)
    ensures db.Valid()
  {
    ghost var start := db.Snapshot();
    AttemptsRun(rules, start, id, cold, job);
    RunKeepsIndices(start, Attempts(rules, start, id, job).log);
    TryRuns(rules, start, id, job.ctx, cold, job.first);
    r := TrySend(db, rules, id, job.ctx, cold, job.first);
    if r.Failed? {
      ghost var first := TryOnce(rules, start, id, job.ctx, job.first).log;
      ghost var between := AfterFailure(rules, start, id, job.first);
      RunKeepsIndices(start, first);
      RunConcat(start, first, TryOnce(rules, between, id, job.ctx, job.second).log);
      r := TrySend(db, rules, id, job.ctx, cold, job.second);
    }
  }

  /** `registerColdSendFailure`. */
  method RegisterColdSendFailure(db: Database, id: LeadId, text: string, maxFailures: int) returns (quarantined: bool)
    requires db.Valid() && id in db.leads
    modifies db
    ensures quarantined <==> CountFailures(old(db.messages), id) + 1 >= maxFailures
    ensures Run(old(db.Snapshot()), FailureLog(old(db.Snapshot()), id, text, maxFailures)) == Some(db.Snapshot())
  {
    ghost var start := db.Snapshot();
    FailureRuns(start, id, text, maxFailures);
    var note := FailureNote(id, text);
    RunOne(start, Say(note));
    var ok := db.CreateMessage(note);
    assert db.messages[..|db.messages| - 1] == start.messages;
    var failures := CountFailures(db.messages, id);
    if failures < maxFailures {
      return false;
    }
    if db.leads[id].status.LeadDiscovered? {
      var row := db.leads[id].(status := ClosedLost, nextFollowUp := None);
      RunSnoc(start, [Say(note)], Update(id, row));
      assert [Say(note), Update(id, row)] == [Say(note)] + [Update(id, row)];
      ok := db.UpdateLead(id, row);
    }
    return true;
  }

  /** Record, transition and, after a cold message, the ledger row. */
  method RecordDelivery(db: Database, id: LeadId, p: Phase, thread: ThreadUrl, ctx: Ctx) returns (outcome: Outcome)
    requires db.Valid() && id in db.leads && PhaseForStatus(db.leads[id].status) == Some(p)
    modifies db
    ensures outcome == Deliver(old(db.Snapshot()), id, p, thread, ctx).outcome
    ensures Run(old(db.Snapshot()), Deliver(old(db.Snapshot()), id, p, thread, ctx).log) == Some(db.Snapshot())
  {
    ghost var start := db.Snapshot();
    DeliverRuns(start, id, p, thread, ctx);
    var l := db.leads[id];
    var isCold := l.status.LeadDiscovered?;
    var m := TemplateMessage(id, p, ctx);
    RunOne(start, Say(m));
    var ok := db.CreateMessage(m);
    var row := AdvancedRow(l, p, thread, ctx);
    ok := db.UpdateLead(id, row);
    if !ok {
      return Threw;
    }
    ghost var log := [Say(m)] + [Update(id, row)];
    AdvanceRuns(start, id, p, thread, ctx);
    assert log + [] == log;
    if isCold {
      ok := MarkByGuard(db, start, log, id, Contact(l.host, ctx.now, Some(ctx.account), FromOutbound));
    }
    return WasSent;
  }

  /** What follows the attempts. */
  method Conclude(db: Database, id: LeadId, p: Phase, job: Job, r: Result) returns (outcome: Outcome)
    requires db.Valid() && id in db.leads && PhaseForStatus(db.leads[id].status) == Some(p)
    modifies db
    ensures outcome == Tail(old(db.Snapshot()), id, p, job, r).outcome
    ensures Run(old(db.Snapshot()), Tail(old(db.Snapshot()), id, p, job, r).log) == Some(db.Snapshot())
  {
    var cold := db.leads[id].status.LeadDiscovered?;
    match r
    case Blocked(b) => outcome := WasBlocked(b);
    case Existing => outcome := WasSkipped;
    case Sent(thread) => outcome := RecordDelivery(db, id, p, thread, job.ctx);
    case _ =>
      if cold {
        var q := RegisterColdSendFailure(db, id, job.error, job.ctx.maxFailures);
      }
      outcome := WasFailed;
  }

  method SendAfterGate(db: Database, rules: Rules, id: LeadId, p: Phase, job: Job) returns (outcome: Outcome)
    requires db.Valid() && id in db.leads && PhaseForStatus(db.leads[id].status) == Some(p)
    requires JobFits(db.Snapshot(), id, db.leads[id].status.LeadDiscovered?, job)
    modifies db
    ensures outcome == SendCore(rules, old(db.Snapshot()), id, p, job).outcome
    ensures Run(old(db.Snapshot()), SendCore(rules, old(db.Snapshot()), id, p, job).log) == Some(db.Snapshot())
  {
    ghost var start := db.Snapshot();
    var r := SendTwice(db, rules, id, start.leads[id].status.LeadDiscovered?, job);
    ghost var log := Attempts(rules, start, id, job).log;
    if r.Existing? {
      assert log + [] == log;
      return WasSkipped;
    }
    RunConcat(start, log, Tail(db.Snapshot(), id, p, job, r).log);
    outcome := Conclude(db, id, p, job, r);
  }

  /** `sendLeadWithAccount`. */
  method SendLeadWithAccount(db: Database, rules: Rules, id: LeadId, job: Job) returns (outcome: Outcome)
    requires db.Valid() && id in db.leads
    requires JobFits(db.Snapshot(), id, db.leads[id].status.LeadDiscovered?, job)
    modifies db
    ensures outcome == SendLead(rules, old(db.Snapshot()), id, job).outcome
    ensures Run(old(db.Snapshot()), SendLead(rules, old(db.Snapshot()), id, job).log) == Some(db.Snapshot())
    ensures db.Valid()
  {
    ghost var start := db.Snapshot();
    SendLeadRuns(rules, start, id, job);
    RunKeepsIndices(start, SendLead(rules, start, id, job).log);
    var reason, other := AssertColdOutboundAllowed(db, rules, id);
    var status := db.leads[id].status;
    if reason.Some? && status.LeadDiscovered? {
      return WasSkipped;
    }
    var phase := PhaseForStatus(status);
    if phase.None? {
      return WasSkipped;
    }
    outcome := SendAfterGate(db, rules, id, phase.value, job);
  }

  /** `bindLeadToHarvestListing`. */
  method BindToListing(db: Database, id: LeadId, url: string, title: Option<string>)
    requires db.Valid() && id in db.leads
    modifies db`leads
    ensures db.Snapshot() == Bound(old(db.Snapshot()), id, url, title) && db.Valid()
    ensures Run(old(db.Snapshot()), BindLog(old(db.leads)[id], id, url, title)) == Some(db.Snapshot())
  {
    BindRuns(db.Snapshot(), id, url, title);
    RunKeepsIndices(db.Snapshot(), BindLog(db.leads[id], id, url, title));
    var l := db.leads[id];
    if l.url != url || (title.Some? && l.listingName != title) {
      var ok := db.UpdateLead(id, BoundRow(l, url, title));
    }
  }
}
