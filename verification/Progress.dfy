/** Why a run of sends cannot go on for ever: the phases still open to the leads it has not given up on. */
module Progress {
  import opened Records
  import opened Identity
  import opened Gate
  import opened Merge
  import opened Writes
  import opened Sync
  import opened Sending

  /** Template phases a lead of this status can still go through. */
  function Remaining(s: LeadStatus): nat {
    match s
    case LeadDiscovered => 4
    case InitialMsgSent => 3
    case FollowUp1Sent => 2
    case FollowUp2Sent => 1
    case _ => 0
  }

  /** Following the phase tables takes exactly that many steps. */
  lemma RemainingCountsPhases(s: LeadStatus)
    ensures PhaseForStatus(s).None? <==> Remaining(s) == 0
    ensures PhaseForStatus(s).Some? ==> Remaining(s) == 1 + Remaining(NextStatus(PhaseForStatus(s).value))
  {
  }

  lemma RemainingFallsWithRank(s: LeadStatus, t: LeadStatus)
    requires Rank(s) <= Rank(t)
    ensures Remaining(t) <= Remaining(s)
  {
  }

  ghost function SumOver(leads: map<LeadId, Lead>, s: set<LeadId>): nat
    requires s <= leads.Keys
  {
    if s == {} then 0 else
      var k :| k in s;
      Remaining(leads[k].status) + SumOver(leads, s - {k})
  }

  /** Open phases over all leads not given up on. */
  ghost function Potential(leads: map<LeadId, Lead>, excluded: set<LeadId>): nat {
    SumOver(leads, leads.Keys - excluded)
  }

  lemma {:induction false} SumSplit(leads: map<LeadId, Lead>, s: set<LeadId>, k: LeadId)
    requires s <= leads.Keys && k in s
    ensures SumOver(leads, s) == Remaining(leads[k].status) + SumOver(leads, s - {k})
    decreases s
  {
    var j :| j in s && SumOver(leads, s) == Remaining(leads[j].status) + SumOver(leads, s - {j});
    if j != k {
      SumSplit(leads, s - {j}, k);
      SumSplit(leads, s - {k}, j);
      assert s - {j} - {k} == s - {k} - {j};
    }
  }

  /** `b` has no new leads and no lead of lower rank than in `a`. */
  ghost predicate Advances(a: map<LeadId, Lead>, b: map<LeadId, Lead>) {
    forall k :: k in b ==> k in a && Rank(a[k].status) <= Rank(b[k].status)
  }

  lemma {:induction false} SumFalls(a: map<LeadId, Lead>, s: set<LeadId>, b: map<LeadId, Lead>, t: set<LeadId>)
    requires s <= a.Keys && t <= b.Keys && t <= s && Advances(a, b)
    ensures SumOver(b, t) <= SumOver(a, s)
    decreases s
  {
    if s != {} {
      var k :| k in s;
      SumSplit(a, s, k);
      SumFalls(a, s - {k}, b, t - {k});
      if k in t {
        SumSplit(b, t, k);
        RemainingFallsWithRank(a[k].status, b[k].status);
      } else {
        assert t - {k} == t;
      }
    }
  }

  lemma PotentialFalls(a: map<LeadId, Lead>, b: map<LeadId, Lead>, excluded: set<LeadId>)
    requires Advances(a, b)
    ensures Potential(b, excluded) <= Potential(a, excluded)
  {
    SumFalls(a, a.Keys - excluded, b, b.Keys - excluded);
  }

  /** Giving up on a lead that still had a phase. */
  lemma GivingUpLowers(a: map<LeadId, Lead>, b: map<LeadId, Lead>, excluded: set<LeadId>, id: LeadId)
    requires Advances(a, b) && id in a && id !in excluded && Remaining(a[id].status) > 0
    ensures Potential(b, excluded + {id}) < Potential(a, excluded)
  {
    PotentialFalls(a, b, excluded + {id});
    SumSplit(a, a.Keys - excluded, id);
    assert a.Keys - excluded - {id} == a.Keys - (excluded + {id});
  }

  /** Moving a lead on by a phase. */
  lemma SendingLowers(a: map<LeadId, Lead>, b: map<LeadId, Lead>, excluded: set<LeadId>, id: LeadId)
    requires Advances(a, b) && id in a && id in b && id !in excluded
    requires Remaining(b[id].status) < Remaining(a[id].status)
    ensures Potential(b, excluded) < Potential(a, excluded)
  {
    SumSplit(a, a.Keys - excluded, id);
    SumSplit(b, b.Keys - excluded, id);
    SumFalls(a, a.Keys - excluded - {id}, b, b.Keys - excluded - {id});
  }

  // ---------- logs that create no lead ----------

  ghost predicate NoCreate(log: seq<Write>) {
    forall i :: 0 <= i < |log| ==> !log[i].Create?
  }

  lemma WriteAdvances(db: Db, w: Write)
    requires Consistent(db) && Legal(db, w) && !w.Create?
    ensures Advances(db.leads, Apply(db, w).leads)
  {
  }

  lemma {:induction false} RunAdvances(db: Db, log: seq<Write>)
    requires Consistent(db) && LegalLog(db, log) && NoCreate(log)
    ensures Advances(db.leads, Replay(db, log).leads)
  {
    if log != [] {
      var front := log[..|log| - 1];
      RunAdvances(db, front);
      RunKeepsIndices(db, front);
      WriteAdvances(Replay(db, front), log[|log| - 1]);
    }
  }

  lemma {:induction false} SaysCreateNothing(rows: seq<Message>)
    ensures NoCreate(Says(rows))
  {
    if rows != [] {
      SaysCreateNothing(rows[..|rows| - 1]);
    }
  }

  lemma {:induction false} AliasesCreateNothing(listings: seq<string>, host: HostId, lead: LeadId)
    ensures NoCreate(AliasWrites(listings, host, lead))
  {
    if listings != [] {
      AliasesCreateNothing(listings[..|listings| - 1], host, lead);
    }
  }

  lemma TryCreatesNothing(rules: Rules, db: Db, id: LeadId, ctx: Ctx, a: Attempt)
    requires id in db.leads && Names(db, a)
    ensures NoCreate(TryOnce(rules, db, id, ctx, a).log)
  {
    if a.Finds? {
      var target := if a.owner.Some? then a.owner.value else id;
      SaysCreateNothing(SyncedRows(rules, db.messages, target, a.scraped));
      AliasesCreateNothing(a.listings, db.leads[target].host, target);
    }
  }

  lemma AttemptsCreateNothing(rules: Rules, db: Db, id: LeadId, job: Job)
    requires id in db.leads && JobNames(db, job)
    ensures NoCreate(Attempts(rules, db, id, job).log)
  {
    TryCreatesNothing(rules, db, id, job.ctx, job.first);
    if TryOnce(rules, db, id, job.ctx, job.first).result.Failed? {
      TryCreatesNothing(rules, AfterFailure(rules, db, id, job.first), id, job.ctx, job.second);
    }
  }

  lemma TailCreatesNothing(now: Db, id: LeadId, p: Phase, job: Job, result: Result)
    requires id in now.leads
    ensures NoCreate(Tail(now, id, p, job, result).log)
  {
  }

  lemma ConcatCreatesNothing(a: seq<Write>, b: seq<Write>)
    requires NoCreate(a) && NoCreate(b)
    ensures NoCreate(a + b)
  {
  }

  lemma CoreCreatesNothing(rules: Rules, db: Db, id: LeadId, p: Phase, job: Job)
    requires id in db.leads && JobNames(db, job)
    ensures NoCreate(SendCore(rules, db, id, p, job).log)
  {
    AttemptsCreateNothing(rules, db, id, job);
    var t := Attempts(rules, db, id, job);
    var now := AfterAttempts(rules, db, id, job);
    TailCreatesNothing(now, id, p, job, t.result);
    ConcatCreatesNothing(t.log, Tail(now, id, p, job, t.result).log);
  }

  lemma SendCreatesNothing(rules: Rules, db: Db, id: LeadId, job: Job)
    requires id in db.leads && JobNames(db, job)
    ensures NoCreate(SendLead(rules, db, id, job).log)
  {
    var p := PhaseForStatus(db.leads[id].status);
    if p.Some? {
      CoreCreatesNothing(rules, db, id, p.value, job);
    }
  }

  // ---------- one send ----------

  /** The rows right after a delivery: one lead has moved on, nothing else has changed. */
  lemma DeliveredRows(db: Db, id: LeadId, p: Phase, thread: ThreadUrl, ctx: Ctx)
    requires Consistent(db) && id in db.leads && PhaseForStatus(db.leads[id].status) == Some(p)
    requires Deliver(db, id, p, thread, ctx).outcome.WasSent?
    ensures LegalLog(db, Deliver(db, id, p, thread, ctx).log)
    ensures Replay(db, Deliver(db, id, p, thread, ctx).log).leads
      == db.leads[id := AdvancedRow(db.leads[id], p, thread, ctx)]
  {
    DeliverRuns(db, id, p, thread, ctx);
    var row := AdvancedRow(db.leads[id], p, thread, ctx);
    var head := [Say(TemplateMessage(id, p, ctx))] + [Update(id, row)];
    AdvanceRuns(db, id, p, thread, ctx);
    if db.leads[id].status.LeadDiscovered? {
      MarkLast(db, head, id, Contact(row.host, ctx.now, Some(ctx.account), FromOutbound));
    } else {
      assert head + [] == head;
    }
  }

  /** A ledger row at the end of a log leaves the leads alone. */
  lemma MarkLast(db: Db, head: seq<Write>, id: LeadId, contact: Contact)
    requires LegalLog(db, head) && Consistent(Replay(db, head))
    requires id in Replay(db, head).leads && contact.host == Replay(db, head).leads[id].host
    ensures var mark := MarkIfNew(Replay(db, head).contacts, id, contact);
      LegalLog(db, head + mark) && Replay(db, head + mark).leads == Replay(db, head).leads
  {
    var now := Replay(db, head);
    MarkRuns(now, id, contact);
    RunConcat(db, head, MarkIfNew(now.contacts, id, contact));
    if id !in now.contacts {
      RunOne(now, Mark(id, contact));
    }
  }

  /** A sent lead moves on by exactly one phase. */
  lemma SentMovesOn(rules: Rules, db: Db, id: LeadId, job: Job)
    requires Consistent(db) && id in db.leads
    requires JobFits(db, id, db.leads[id].status.LeadDiscovered?, job)
    requires SendLead(rules, db, id, job).outcome.WasSent?
    ensures LegalLog(db, SendLead(rules, db, id, job).log)
    ensures PhaseForStatus(db.leads[id].status).Some?
    ensures var n := Replay(db, SendLead(rules, db, id, job).log).leads;
      id in n && n[id].status == NextStatus(PhaseForStatus(db.leads[id].status).value)
  {
    var p := PhaseForStatus(db.leads[id].status).value;
    var cold := db.leads[id].status.LeadDiscovered?;
    AttemptsRun(rules, db, id, cold, job);
    var t := Attempts(rules, db, id, job);
    RunKeepsIndices(db, t.log);
    var now := AfterAttempts(rules, db, id, job);
    DeliveredRows(now, id, p, t.result.thread, job.ctx);
    RunConcat(db, t.log, Deliver(now, id, p, t.result.thread, job.ctx).log);
  }

  /** Every send that does not crash or block the account brings the run nearer to its end: a sent lead has a phase
      less, and a lead given up on has no phases left for this run. */
  lemma SendLowersPotential(rules: Rules, db: Db, id: LeadId, job: Job, excluded: set<LeadId>, after: Db)
    requires Consistent(db) && id in db.leads && id !in excluded && PhaseForStatus(db.leads[id].status).Some?
    requires JobFits(db, id, db.leads[id].status.LeadDiscovered?, job)
    requires Run(db, SendLead(rules, db, id, job).log) == Some(after)
    ensures Potential(after.leads, excluded) <= Potential(db.leads, excluded)
    ensures Potential(after.leads, excluded + {id}) < Potential(db.leads, excluded)
    ensures SendLead(rules, db, id, job).outcome.WasSent? ==>
      Potential(after.leads, excluded) < Potential(db.leads, excluded)
  {
    SendCreatesNothing(rules, db, id, job);
    RunAdvances(db, SendLead(rules, db, id, job).log);
    PotentialFalls(db.leads, after.leads, excluded);
    RemainingCountsPhases(db.leads[id].status);
    GivingUpLowers(db.leads, after.leads, excluded, id);
    if SendLead(rules, db, id, job).outcome.WasSent? {
      SentMovesOn(rules, db, id, job);
      SendingLowers(db.leads, after.leads, excluded, id);
    }
  }
}
