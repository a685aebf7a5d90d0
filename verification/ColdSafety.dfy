/** Where a cold message can land: exactly when the two-attempt send keeps the gate's promise. */
module ColdSafety {
  import opened Records
  import opened Identity
  import opened Gate
  import opened Merge
  import opened Recanonical
  import opened Writes
  import opened Sync
  import opened Sending
  import opened Witness

  /** No cold message and no bot reply among the writes. */
  ghost predicate Quiet(log: seq<Write>) {
    forall i: nat :: i < |log| && log[i].Say? ==> !IsCold(log[i].msg) && !IsCuriosity(log[i].msg)
  }

  lemma QuietConcat(a: seq<Write>, b: seq<Write>)
    requires Quiet(a) && Quiet(b)
    ensures Quiet(a + b)
  {
    forall i: nat | i < |a + b| && (a + b)[i].Say?
      ensures !IsCold((a + b)[i].msg) && !IsCuriosity((a + b)[i].msg)
    {
      if |a| <= i {
        assert (a + b)[i] == b[i - |a|];
      }
    }
  }

  lemma {:induction false} SaysAreQuiet(rows: seq<Message>)
    requires forall i :: 0 <= i < |rows| ==> Plain(rows[i])
    ensures Quiet(Says(rows))
  {
    if rows != [] {
      var m := rows[|rows| - 1];
      SaysAreQuiet(rows[..|rows| - 1]);
      QuietConcat(Says(rows[..|rows| - 1]), [Say(m)]);
    }
  }

  lemma {:induction false} AliasesAreQuiet(listings: seq<string>, host: HostId, lead: LeadId)
    ensures Quiet(AliasWrites(listings, host, lead))
  {
    if listings != [] {
      var front := AliasWrites(listings[..|listings| - 1], host, lead);
      AliasesAreQuiet(listings[..|listings| - 1], host, lead);
      QuietConcat(front, [LinkAlias(ListingHostId(listings[|listings| - 1]), host, Some(lead))]);
    }
  }

  lemma HeadIsQuiet(rules: Rules, db: Db, target: LeadId, scraped: seq<Scraped>, listings: seq<string>)
    requires target in db.leads
    ensures Quiet(HeadLog(rules, db, target, scraped, listings))
  {
    SyncedRowsArePlain(rules, db.messages, target, scraped);
    SaysAreQuiet(SyncedRows(rules, db.messages, target, scraped));
    AliasesAreQuiet(listings, db.leads[target].host, target);
    QuietConcat(Says(SyncedRows(rules, db.messages, target, scraped)),
        AliasWrites(listings, db.leads[target].host, target));
  }

  lemma TryIsQuiet(rules: Rules, db: Db, id: LeadId, ctx: Ctx, a: Attempt)
    requires id in db.leads
    requires Names(db, a)
    ensures Quiet(TryOnce(rules, db, id, ctx, a).log)
  {
    if a.Finds? {
      var target := if a.owner.Some? then a.owner.value else id;
      HeadIsQuiet(rules, db, target, a.scraped, a.listings);
      FoundShape(rules, db, id, ctx, a);
      var head := HeadLog(rules, db, target, a.scraped, a.listings);
      var log := FoundThread(rules, db, id, ctx, a).log;
      QuietConcat(head, log[|head|..]);
      assert log == head + log[|head|..];
    }
  }

  /** Behind the synced rows a found thread says nothing. */
  lemma FoundShape(rules: Rules, db: Db, id: LeadId, ctx: Ctx, a: Attempt)
    requires id in db.leads && a.Finds? && Names(db, a)
    ensures var head := HeadLog(rules, db, if a.owner.Some? then a.owner.value else id, a.scraped, a.listings);
      var log := FoundThread(rules, db, id, ctx, a).log;
      head <= log && forall i :: |head| <= i < |log| ==> !log[i].Say?
  {
  }

  lemma AttemptsAreQuiet(rules: Rules, db: Db, id: LeadId, job: Job)
    requires id in db.leads && JobNames(db, job)
    ensures Quiet(Attempts(rules, db, id, job).log)
  {
    TryIsQuiet(rules, db, id, job.ctx, job.first);
    var first := TryOnce(rules, db, id, job.ctx, job.first);
    if first.result.Failed? {
      var between := AfterFailure(rules, db, id, job.first);
      TryIsQuiet(rules, between, id, job.ctx, job.second);
      QuietConcat(first.log, TryOnce(rules, between, id, job.ctx, job.second).log);
    }
  }

  /** The only cold message a send can write is the record of the delivered template, right after the attempts. */
  lemma ColdRecordPlace(rules: Rules, db: Db, id: LeadId, p: Phase, job: Job, i: nat)
    requires id in db.leads && JobNames(db, job)
    requires ColdAt(SendCore(rules, db, id, p, job).log, i)
    ensures var t := Attempts(rules, db, id, job);
      && t.result.Sent? && i == |t.log| && p == Phase1Cold
      && SendCore(rules, db, id, p, job).log[i].msg.lead == id
  {
    AttemptsAreQuiet(rules, db, id, job);
    var t := Attempts(rules, db, id, job);
    var tail := Tail(AfterAttempts(rules, db, id, job), id, p, job, t.result);
    assert !ColdAt(t.log, i);
    assert (t.log + tail.log)[i] == tail.log[i - |t.log|];
    TailColdPlace(AfterAttempts(rules, db, id, job), id, p, job, t.result, i - |t.log|);
  }

  lemma TailColdPlace(now: Db, id: LeadId, p: Phase, job: Job, result: Result, i: nat)
    requires id in now.leads
    requires ColdAt(Tail(now, id, p, job, result).log, i)
    ensures result.Sent? && i == 0 && p == Phase1Cold
    ensures Tail(now, id, p, job, result).log[i].msg.lead == id
  {
    TagsDiffer(p);
    TagsDiffer(Phase1Cold);
  }

  /** No send writes a bot reply. */
  lemma SendsWriteNoBotReply(rules: Rules, db: Db, id: LeadId, p: Phase, job: Job, i: nat)
    requires id in db.leads && JobNames(db, job)
    requires var log := SendCore(rules, db, id, p, job).log; i < |log| && log[i].Say?
    ensures !IsCuriosity(SendCore(rules, db, id, p, job).log[i].msg)
  {
    AttemptsAreQuiet(rules, db, id, job);
    var t := Attempts(rules, db, id, job);
    var tail := Tail(AfterAttempts(rules, db, id, job), id, p, job, t.result);
    assert SendCore(rules, db, id, p, job).log == t.log + tail.log;
    if i >= |t.log| {
      assert (t.log + tail.log)[i] == tail.log[i - |t.log|];
      TailHasNoBotReply(AfterAttempts(rules, db, id, job), id, p, job, t.result, i - |t.log|);
    }
  }

  lemma TailHasNoBotReply(now: Db, id: LeadId, p: Phase, job: Job, result: Result, i: nat)
    requires id in now.leads
    requires var log := Tail(now, id, p, job, result).log; i < |log| && log[i].Say?
    ensures !IsCuriosity(Tail(now, id, p, job, result).log[i].msg)
  {
    TagsDiffer(p);
  }

  /** The first attempt ran into a thread whose URL carries no thread number although another lead holds it, and copied
      one of our own messages before the claim failed. Everything here is known before the second attempt starts. */
  predicate StaleRetry(rules: Rules, db: Db, id: LeadId, a: Attempt) {
    && a.Finds? && a.owner.None? && !ThreadFree(db.leads, id, Some(a.url))
    && exists j :: 0 <= j < |a.scraped| && !a.scraped[j].inbound && Meaningful(rules, a.scraped[j])
  }

  lemma OutboundRowsAppear(rules: Rules, ms: seq<Message>, id: LeadId, scraped: seq<Scraped>)
    requires !HasOutbound(ms, id)
    ensures HasOutbound(ms + SyncedRows(rules, ms, id, scraped), id)
       <==> exists j :: 0 <= j < |scraped| && !scraped[j].inbound && Meaningful(rules, scraped[j])
  {
    var rows := SyncedRows(rules, ms, id, scraped);
    SyncedRowsAreTheLeads(rules, ms, id, scraped);
    if j :| 0 <= j < |scraped| && !scraped[j].inbound && Meaningful(rules, scraped[j]) {
      var key := KeyOf(rules, scraped[j]);
      OneRowPerNewKey(rules, ms, id, scraped, Outbound, key);
      CountedIsStored(rules, ms, rows, id, Outbound, key);
    }
    if i :| 0 <= i < |ms + rows| && (ms + rows)[i].lead == id && (ms + rows)[i].direction.Outbound? {
      var key := rules.normalize((ms + rows)[i].content);
      assert Stored(rules, ms + rows, id, Outbound, key);
      CountedIsStored(rules, ms, rows, id, Outbound, key);
      OneRowPerNewKey(rules, ms, id, scraped, Outbound, key);
    }
  }

  lemma ContactedAfterAttempts(rules: Rules, db: Db, id: LeadId, job: Job)
    requires Consistent(db) && id in db.leads && !Contacted(db, id)
    requires JobFits(db, id, true, job)
    requires Attempts(rules, db, id, job).result.Sent?
    ensures Contacted(AfterAttempts(rules, db, id, job), id) <==> StaleRetry(rules, db, id, job.first)
  {
    TryRuns(rules, db, id, job.ctx, true, job.first);
    if job.first.Finds? {
      OutboundRowsAppear(rules, db.messages, id, job.first.scraped);
    }
  }

  /** The log is legal, its entry `i` is a cold message to `id`, and that message was recorded on a lead uncontacted
      in all four senses iff the first attempt was not a stale one. */
  ghost predicate ColdExactly(rules: Rules, db: Db, id: LeadId, job: Job, log: seq<Write>, i: nat) {
    && LegalLog(db, log) && ColdAt(log, i) && log[i].msg.lead == id
    && (ColdIsFirst(db, log, i) <==> !StaleRetry(rules, db, id, job.first))
  }

  /** Exactly when a delivered cold message lands on a contacted lead. */
  lemma CoreColdExactness(rules: Rules, db: Db, id: LeadId, job: Job, i: nat)
    requires Consistent(db) && id in db.leads && !Contacted(db, id)
    requires JobFits(db, id, true, job)
    requires ColdAt(SendCore(rules, db, id, Phase1Cold, job).log, i)
    ensures ColdExactly(rules, db, id, job, SendCore(rules, db, id, Phase1Cold, job).log, i)
  {
    SendCoreRuns(rules, db, id, Phase1Cold, job);
    ColdRecordPlace(rules, db, id, Phase1Cold, job, i);
    AttemptsRun(rules, db, id, true, job);
    ContactedAfterAttempts(rules, db, id, job);
    var log := SendCore(rules, db, id, Phase1Cold, job).log;
    assert log[..i] == Attempts(rules, db, id, job).log;
  }

  /** A cold message of the outbound job goes only to a lead whose whole cluster was untouched when the gate looked,
      and it is recorded on a lead uncontacted in all four senses iff the first attempt was not a stale one. */
  lemma SendLeadColdExactness(rules: Rules, db: Db, id: LeadId, job: Job, i: nat)
    requires Consistent(db) && id in db.leads
    requires var cold := db.leads[id].status.LeadDiscovered?; JobFits(db, id, cold, job)
    requires ColdAt(SendLead(rules, db, id, job).log, i)
    ensures ColdExactly(rules, db, id, job, SendLead(rules, db, id, job).log, i)
    ensures ClusterUntouched(db, ClusterOf(db, id, db.leads[id]))
  {
    var p := PhaseForStatus(db.leads[id].status).value;
    ColdRecordPlace(rules, db, id, p, job, i);
    OpenGateIsClean(rules, db, id);
    CoreColdExactness(rules, db, id, job, i);
  }

  /** The same for the send that follows a harvested listing. */
  lemma HarvestSendColdExactness(rules: Rules, db: Db, id: LeadId, url: string, title: Option<string>, job: Job, i: nat)
    requires Consistent(db) && id in db.leads && JobFits(db, id, true, job)
    requires ColdAt(HarvestSend(rules, db, id, url, title, job).log, i)
    ensures ColdExactly(rules, db, id, job, HarvestSend(rules, db, id, url, title, job).log, i)
  {
    HarvestSendShape(rules, db, id, url, title, job, i);
    OpenGateIsClean(rules, db, id);
    BoundColdExactness(rules, db, id, url, title, job, i);
  }

  lemma HarvestSendNeedsCleanCluster(rules: Rules, db: Db, id: LeadId, url: string, title: Option<string>, job: Job,
                                     i: nat)
    requires Consistent(db) && id in db.leads && JobFits(db, id, true, job)
    requires ColdAt(HarvestSend(rules, db, id, url, title, job).log, i)
    ensures ClusterUntouched(db, ClusterOf(db, id, db.leads[id]))
  {
    HarvestSendShape(rules, db, id, url, title, job, i);
    OpenGateIsClean(rules, db, id);
  }

  lemma OpenGateIsClean(rules: Rules, db: Db, id: LeadId)
    requires Sound(db) && id in db.leads && GateReason(rules, db, id).None?
    ensures ClusterUntouched(db, ClusterOf(db, id, db.leads[id])) && !Contacted(db, id)
  {
    GateMeaning(rules, db, id);
    assert id in ClusterOf(db, id, db.leads[id]).leadIds;
  }

  lemma HarvestSendShape(rules: Rules, db: Db, id: LeadId, url: string, title: Option<string>, job: Job, i: nat)
    requires id in db.leads && JobNames(db, job)
    requires ColdAt(HarvestSend(rules, db, id, url, title, job).log, i)
    ensures GateReason(rules, db, id).None?
    ensures var bind := BindLog(db.leads[id], id, url, title);
      var core := SendCore(rules, Bound(db, id, url, title), id, Phase1Cold, job).log;
      && HarvestSend(rules, db, id, url, title, job).log == bind + core
      && |bind| <= i && ColdAt(core, i - |bind|)
  {
  }

  lemma BoundColdExactness(rules: Rules, db: Db, id: LeadId, url: string, title: Option<string>, job: Job, i: nat)
    requires Consistent(db) && id in db.leads && JobFits(db, id, true, job) && !Contacted(db, id)
    requires var bind := BindLog(db.leads[id], id, url, title);
      |bind| <= i && ColdAt(SendCore(rules, Bound(db, id, url, title), id, Phase1Cold, job).log, i - |bind|)
    ensures var bind := BindLog(db.leads[id], id, url, title);
      ColdExactly(rules, db, id, job, bind + SendCore(rules, Bound(db, id, url, title), id, Phase1Cold, job).log, i)
  {
    var bind, b := BindLog(db.leads[id], id, url, title), Bound(db, id, url, title);
    BindRuns(db, id, url, title);
    RunKeepsIndices(db, bind);
    FitsAfterBinding(db, b, id, job.first);
    FitsAfterBinding(db, b, id, job.second);
    CoreColdExactness(rules, b, id, job, i - |bind|);
    StaleAfterBinding(rules, db, b, id, job.first);
    ColdBehindPrefix(db, bind, b, SendCore(rules, b, id, Phase1Cold, job).log, i);
  }

  lemma StaleAfterBinding(rules: Rules, db: Db, b: Db, id: LeadId, a: Attempt)
    requires id in db.leads && b.leads.Keys == db.leads.Keys
    requires forall k :: k in db.leads ==> b.leads[k].thread == db.leads[k].thread
    ensures StaleRetry(rules, b, id, a) <==> StaleRetry(rules, db, id, a)
  {
  }

  lemma ColdBehindPrefix(db: Db, head: seq<Write>, b: Db, core: seq<Write>, i: nat)
    requires Run(db, head) == Some(b) && LegalLog(b, core) && |head| <= i && ColdAt(core, i - |head|)
    ensures LegalLog(db, head + core) && ColdAt(head + core, i) && (head + core)[i] == core[i - |head|]
    ensures ColdIsFirst(db, head + core, i) <==> ColdIsFirst(b, core, i - |head|)
  {
    var k := i - |head|;
    RunConcat(db, head, core);
    RunConcat(db, head, core[..k]);
    assert (head + core)[..i] == head + core[..k];
    LogPrefix(b, core, k);
  }

  /** Once a cold message is on record, the gate refuses the lead's heir for ever after, wherever the run stops. */
  lemma RecordedColdIsRefused(rules: Rules, db: Db, log: seq<Write>, i: nat, n: nat)
    requires Consistent(db) && LegalLog(db, log) && ColdAt(log, i) && i < n <= |log|
    ensures LegalLog(db, log[..n])
    ensures var h := Heir(log[i + 1..n], log[i].msg.lead);
      h in Replay(db, log[..n]).leads && GateReason(rules, Replay(db, log[..n]), h).Some?
  {
    var early := log[..n];
    LogPrefix(db, log, n);
    LogEntry(db, early, i);
    LogPrefix(db, early, i + 1);
    assert early[..i + 1] == log[..i + 1] && early[i + 1..] == log[i + 1..n];
    var after := Replay(db, log[..i + 1]);
    RunKeepsIndices(db, early[..i + 1]);
    assert after.messages[|after.messages| - 1] == log[i].msg;
    ContactIsPermanent(after, log[i + 1..n], log[i].msg.lead);
    RunKeepsIndices(db, early);
    GateMeaning(rules, Replay(db, early), Heir(log[i + 1..n], log[i].msg.lead));
  }

  // ---------- the stale retry happens ----------

  /** A fresh lead, and another one whose thread is known under an address without a number. */
  function StaleDb(base: string): Db {
    Db(map[0 := FreshLead(base, "1", '1'), 1 := OldLead(base, "2", '2')], map[], map[], [])
  }

  /** The first attempt is redirected to that thread, the second one is delivered. */
  function StaleJob(base: string, ctx: Ctx): Job {
    Job(ctx, Finds(OldThread(base), [Scraped(false, "hola")], [], None), Delivers(base + "/guest/messages/2"), "")
  }

  lemma OneRowHead(rules: Rules, db: Db, id: LeadId, m: Scraped)
    requires id in db.leads && db.messages == [] && Meaningful(rules, m)
    ensures |HeadLog(rules, db, id, [m], [])| == 1
  {
    var s := [m];
    assert SyncedRows(rules, [], id, s[..0]) == [];
    var rows := SyncedRows(rules, [], id, s);
    assert rows == NewRow(rules, [], id, s[0]);
    assert Says(rows) == Says(rows[..0]) + [Say(rows[0])];
  }

  /** A thread that cannot be claimed, then a delivery. */
  lemma FailedThenSent(rules: Rules, db: Db, id: LeadId, job: Job)
    requires id in db.leads && JobNames(db, job) && job.first.Finds? && job.first.owner.None? && job.second.Delivers?
    requires !ThreadFree(db.leads, id, Some(job.first.url))
    ensures Attempts(rules, db, id, job)
      == Tried(HeadLog(rules, db, id, job.first.scraped, job.first.listings), Sent(job.second.thread))
  {
  }

  lemma StaleAttempts(base: string, ctx: Ctx)
    ensures Attempts(EAGER_RULES, StaleDb(base), 0, StaleJob(base, ctx)).result.Sent?
    ensures |Attempts(EAGER_RULES, StaleDb(base), 0, StaleJob(base, ctx)).log| == 1
  {
    assert StaleDb(base).leads[1].thread == Some(OldThread(base));
    assert Meaningful(EAGER_RULES, Scraped(false, "hola"));
    FailedThenSent(EAGER_RULES, StaleDb(base), 0, StaleJob(base, ctx));
    OneRowHead(EAGER_RULES, StaleDb(base), 0, Scraped(false, "hola"));
  }

  lemma StaleStoreIsConsistent(base: string, ctx: Ctx)
    requires IsBase(base)
    ensures Consistent(StaleDb(base)) && JobFits(StaleDb(base), 0, true, StaleJob(base, ctx))
    ensures StaleRetry(EAGER_RULES, StaleDb(base), 0, StaleJob(base, ctx).first)
  {
    OldThreadHasNoNumber(base);
    assert StaleDb(base).leads[1].thread == Some(OldThread(base));
    assert Meaningful(EAGER_RULES, StaleJob(base, ctx).first.scraped[0]);
  }

  lemma StaleGateIsOpen(base: string)
    requires IsBase(base)
    ensures GateReason(EAGER_RULES, StaleDb(base), 0).None?
  {
    ListingsDoNotMeet(base, "1", '1', '2');
    StrangersDoNotBlock(EAGER_RULES, StaleDb(base), 0);
  }

  lemma DeliveredColdRecord(now: Db, id: LeadId, job: Job, thread: ThreadUrl)
    requires id in now.leads && now.leads[id].status.LeadDiscovered?
    ensures ColdAt(Tail(now, id, Phase1Cold, job, Sent(thread)).log, 0)
  {
  }

  /** Behind an open gate a delivered thread ends in a cold record right after the attempts. */
  lemma OpenGateSends(rules: Rules, db: Db, id: LeadId, job: Job)
    requires id in db.leads && JobNames(db, job)
    requires db.leads[id].status.LeadDiscovered? && GateReason(rules, db, id).None?
    requires Attempts(rules, db, id, job).result.Sent?
    ensures ColdAt(SendLead(rules, db, id, job).log, |Attempts(rules, db, id, job).log|)
  {
    var t := Attempts(rules, db, id, job);
    DeliveredColdRecord(AfterAttempts(rules, db, id, job), id, job, t.result.thread);
    var tail := Tail(AfterAttempts(rules, db, id, job), id, Phase1Cold, job, t.result);
    assert (t.log + tail.log)[|t.log|] == tail.log[0];
  }

  /** A concrete store and pair of answers, with real addresses, for which the cold message is recorded on a lead that
      by then has an outbound message: "recorded only on uncontacted leads" is false of the two-attempt send. */
  lemma StaleRetryHappens(ctx: Ctx)
    ensures var db, job := StaleDb(AIRBNB), StaleJob(AIRBNB, ctx);
      && Consistent(db) && JobFits(db, 0, true, job)
      && var log := SendLead(EAGER_RULES, db, 0, job).log;
      LegalLog(db, log) && ColdAt(log, 1) && !ColdIsFirst(db, log, 1)
  {
    AirbnbIsBase();
    StaleRetryAt(AIRBNB, ctx);
  }

  lemma StaleRetryAt(base: string, ctx: Ctx)
    requires IsBase(base)
    ensures var db, job := StaleDb(base), StaleJob(base, ctx);
      && Consistent(db) && JobFits(db, 0, true, job)
      && var log := SendLead(EAGER_RULES, db, 0, job).log;
      LegalLog(db, log) && ColdAt(log, 1) && !ColdIsFirst(db, log, 1)
  {
    StaleStoreIsConsistent(base, ctx);
    StaleGateIsOpen(base);
    StaleAttempts(base, ctx);
    OpenGateSends(EAGER_RULES, StaleDb(base), 0, StaleJob(base, ctx));
    SendLeadColdExactness(EAGER_RULES, StaleDb(base), 0, StaleJob(base, ctx), 1);
  }
}
