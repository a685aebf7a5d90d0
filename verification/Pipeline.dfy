/** Runs of the whole pipeline: any sequence of harvest, send and poll activities, each possibly stopped half-way. */
module Pipeline {
  import opened Records
  import opened Gate
  import opened Merge
  import opened Writes
  import opened Sync
  import opened Sending
  import opened ColdSafety
  import opened Harvesting
  import opened Conversation

  datatype Activity =
    | HarvestActivity(h: Harvested, newId: LeadId, existing: Option<LeadId>, duplicate: Option<LeadId>)
    | HarvestSendActivity(lead: LeadId, url: string, title: Option<string>, job: Job)
    | SendActivity(lead: LeadId, job: Job)
    | PollActivity(lead: LeadId, seen: LeadStatus, scraped: seq<Scraped>, scrapedReply: bool, reading: Option<Reading>,
        history: nat, now: Time)
    | FixActivity(lead: LeadId, now: Time)

  /** `fixInconsistentDiscoveredLead`: a discovered lead with a thread or an outbound message is moved on. */
  function FixLog(db: Db, id: LeadId, now: Time): seq<Write>
    requires id in db.leads
  {
    var l := db.leads[id];
    if l.status.LeadDiscovered? && (l.thread.Some? || HasOutbound(db.messages, id))
    then [Update(id, l.(status := InitialMsgSent, lastContacted := Or(l.lastContacted, Some(now))))]
    else []
  }

  /** The lead exists and the answers the activity carries fit the store it starts on. */
  ghost predicate Admissible(db: Db, t: Activity) {
    match t
    case HarvestActivity(h, id, existing, duplicate) => Storable(db, h, id, existing, duplicate)
    case HarvestSendActivity(id, _, _, job) => id in db.leads && JobFits(db, id, true, job)
    case SendActivity(id, job) => id in db.leads && JobFits(db, id, db.leads[id].status.LeadDiscovered?, job)
    case PollActivity(id, _, _, _, _, _, _) => id in db.leads
    case FixActivity(id, _) => id in db.leads
  }

  ghost function ActivityLog(rules: Rules, db: Db, t: Activity): seq<Write>
    requires Admissible(db, t)
  {
    match t
    case HarvestActivity(h, id, existing, duplicate) => Upsert(db, h, id, existing, duplicate).log
    case HarvestSendActivity(id, url, title, job) => HarvestSend(rules, db, id, url, title, job).log
    case SendActivity(id, job) => SendLead(rules, db, id, job).log
    case PollActivity(id, seen, scraped, scrapedReply, reading, history, now) =>
      Poll(rules, db, id, seen, scraped, scrapedReply, reading, history, now)
    case FixActivity(id, now) => FixLog(db, id, now)
  }

  lemma ActivityRuns(rules: Rules, db: Db, t: Activity)
    requires Consistent(db) && Admissible(db, t)
    ensures LegalLog(db, ActivityLog(rules, db, t))
  {
    match t
    case HarvestActivity(h, id, existing, duplicate) => UpsertRuns(db, h, id, existing, duplicate);
    case HarvestSendActivity(id, url, title, job) => HarvestSendRuns(rules, db, id, url, title, job);
    case SendActivity(id, job) => SendLeadRuns(rules, db, id, job);
    case PollActivity(id, seen, scraped, scrapedReply, reading, history, now) =>
      PollRuns(rules, db, id, seen, scraped, scrapedReply, reading, history, now);
    case FixActivity(id, now) => FixRuns(db, id, now);
  }

  lemma FixRuns(db: Db, id: LeadId, now: Time)
    requires Consistent(db) && id in db.leads
    ensures LegalLog(db, FixLog(db, id, now))
  {
    if FixLog(db, id, now) != [] {
      RunOne(db, FixLog(db, id, now)[0]);
    }
  }

  /** The repair: a discovered lead that has a thread or was written to leaves discovery, dated now unless it has a
      date, and any other lead is left alone; afterwards no discovered lead of this kind is left. */
  lemma FixMeans(db: Db, id: LeadId, now: Time)
    requires Consistent(db) && id in db.leads
    ensures LegalLog(db, FixLog(db, id, now))
    ensures var n, l := Replay(db, FixLog(db, id, now)), db.leads[id];
      && id in n.leads && n == db.(leads := db.leads[id := n.leads[id]])
      && (if l.status == LeadDiscovered && (l.thread != None || HasOutbound(db.messages, id))
          then n.leads[id] == l.(status := InitialMsgSent, lastContacted := n.leads[id].lastContacted)
            && n.leads[id].lastContacted == (if l.lastContacted == None then Some(now) else l.lastContacted)
          else n.leads[id] == l)
      && (n.leads[id].status == LeadDiscovered ==> n.leads[id].thread == None && !HasOutbound(n.messages, id))
  {
    FixRuns(db, id, now);
    assert db.leads[id := db.leads[id]] == db.leads;
    if FixLog(db, id, now) != [] {
      RunOne(db, FixLog(db, id, now)[0]);
    }
  }

  /** An activity and the number of its writes after which the run is interrupted, should it be that short. */
  datatype Scheduled = Scheduled(activity: Activity, stopAfter: nat)

  /** The writes the next activity makes on a store; an activity whose lead or answers do not fit the store makes
      none. */
  ghost function Done(rules: Rules, db: Db, s: Scheduled): seq<Write> {
    if !Admissible(db, s.activity) then []
    else
      var log := ActivityLog(rules, db, s.activity);
      if s.stopAfter < |log| then log[..s.stopAfter] else log
  }

  /** Everything a run writes, activity after activity. */
  ghost function RunLog(rules: Rules, db: Db, run: seq<Scheduled>): seq<Write> {
    if run == [] then []
    else
      var front := RunLog(rules, db, run[..|run| - 1]);
      front + Done(rules, Exec(db, front), run[|run| - 1])
  }

  lemma DoneIsLegal(rules: Rules, db: Db, s: Scheduled)
    requires Consistent(db)
    ensures LegalLog(db, Done(rules, db, s))
  {
    if Admissible(db, s.activity) {
      ActivityRuns(rules, db, s.activity);
      var log := ActivityLog(rules, db, s.activity);
      if s.stopAfter < |log| {
        LogPrefix(db, log, s.stopAfter);
      }
    }
  }

  /** Every run writes a legal log, so everything proved of legal logs holds of every run. */
  lemma {:induction false} RunsAreLegal(rules: Rules, db: Db, run: seq<Scheduled>)
    requires Consistent(db)
    ensures var log := RunLog(rules, db, run);
      LegalLog(db, log) && Consistent(Exec(db, log)) && Run(db, log) == Some(Exec(db, log))
  {
    if run != [] {
      var front := RunLog(rules, db, run[..|run| - 1]);
      RunsAreLegal(rules, db, run[..|run| - 1]);
      DoneIsLegal(rules, Exec(db, front), run[|run| - 1]);
      RunConcat(db, front, Done(rules, Exec(db, front), run[|run| - 1]));
    }
    RunIsExec(db, RunLog(rules, db, run));
    RunKeepsIndices(db, RunLog(rules, db, run));
  }

  // ---------- cold messages over a run ----------

  /** Over every run, merges and interruptions included: the heir of a contacted lead is contacted, and no lead falls
      back in the pipeline. */
  lemma RunsNeverForget(rules: Rules, db: Db, run: seq<Scheduled>, l: LeadId)
    requires Consistent(db) && l in db.leads
    ensures var log := RunLog(rules, db, run); var n, h := Exec(db, log), Heir(log, l);
      h in n.leads && (Contacted(db, l) ==> Contacted(n, h)) && Rank(db.leads[l].status) <= Rank(n.leads[h].status)
  {
    RunsAreLegal(rules, db, run);
    RunIsExec(db, RunLog(rules, db, run));
    ContactIsPermanent(db, RunLog(rules, db, run), l);
  }

  /** Over every run: no template to a lead that has replied, nothing at all to one that is paused. */
  lemma RunsLeaveRepliedLeadsAlone(rules: Rules, db: Db, run: seq<Scheduled>, l: LeadId, i: nat)
    requires Consistent(db) && l in db.leads
    requires var log := RunLog(rules, db, run); i < |log| && log[i].Say? && log[i].msg.lead == Heir(log[..i], l)
    ensures Rank(db.leads[l].status) >= Rank(RepliedInProgress) ==>
      forall p :: !IsTemplate(RunLog(rules, db, run)[i].msg, p)
    ensures IsAiPaused(db.leads[l].status) && RunLog(rules, db, run)[i].msg.direction.Outbound? ==>
      IsCopy(RunLog(rules, db, run)[i].msg)
  {
    RunsAreLegal(rules, db, run);
    RepliedLeadsAreLeftAlone(db, RunLog(rules, db, run), l, i);
  }

  /** A send whose first attempt is stale on the store it starts on. */
  ghost predicate StaleActivity(rules: Rules, db: Db, t: Activity) {
    match t
    case SendActivity(id, job) => id in db.leads && StaleRetry(rules, db, id, job.first)
    case HarvestSendActivity(id, _, _, job) => id in db.leads && StaleRetry(rules, db, id, job.first)
    case _ => false
  }

  ghost predicate NoStaleActivity(rules: Rules, db: Db, run: seq<Scheduled>) {
    forall i :: 0 <= i < |run| ==> !StaleActivity(rules, Exec(db, RunLog(rules, db, run[..i])), run[i].activity)
  }

  lemma QuietActivities(rules: Rules, db: Db, t: Activity, i: nat)
    requires Admissible(db, t) && ColdAt(ActivityLog(rules, db, t), i)
    ensures t.SendActivity? || t.HarvestSendActivity?
  {
    if t.PollActivity? {
      PollIsNeverCold(rules, db, t.lead, t.seen, t.scraped, t.scrapedReply, t.reading, t.history, t.now, i);
    }
  }

  lemma PollIsNeverCold(rules: Rules, db: Db, id: LeadId, seen: LeadStatus, scraped: seq<Scraped>, scrapedReply: bool,
                        reading: Option<Reading>, history: nat, now: Time, i: nat)
    requires id in db.leads
    ensures !ColdAt(Poll(rules, db, id, seen, scraped, scrapedReply, reading, history, now), i)
  {
    var rows := SyncedRows(rules, db.messages, id, scraped);
    SyncedRowsArePlain(rules, db.messages, id, scraped);
    SaysAreQuiet(rows);
    var synced := SyncedDb(rules, db, id, scraped);
    var inboundNew := CountDir(rows, Inbound);
    var reply := ReplyLog(synced, id, seen, inboundNew, scrapedReply, now).0;
    var after := AfterReply(synced, id, seen, inboundNew, scrapedReply, now);
    if ColdAt(Poll(rules, db, id, seen, scraped, scrapedReply, reading, history, now), i) {
      TurnIsNeverCold(after, id, reading, history, now, i - |Says(rows) + reply|);
    }
  }

  lemma TurnIsNeverCold(db: Db, id: LeadId, reading: Option<Reading>, history: nat, now: Time, i: int)
    requires id in db.leads
    ensures i >= 0 ==> !ColdAt(RunTurn(db, id, reading, history, now).log, i)
  {
    if reading.Some? {
      NotesArePlain(id, reading.value.text);
      NotesArePlain(id, reading.value.answer);
    }
  }

  lemma ActivityColdIsFirst(rules: Rules, db: Db, t: Activity, i: nat)
    requires Consistent(db) && Admissible(db, t) && !StaleActivity(rules, db, t) && ColdAt(ActivityLog(rules, db, t), i)
    ensures LegalLog(db, ActivityLog(rules, db, t)) && ColdIsFirst(db, ActivityLog(rules, db, t), i)
  {
    QuietActivities(rules, db, t, i);
    match t
    case SendActivity(id, job) => SendLeadColdExactness(rules, db, id, job, i);
    case HarvestSendActivity(id, url, title, job) => HarvestSendColdExactness(rules, db, id, url, title, job, i);
    case _ =>
  }

  lemma ColdInPrefix(db: Db, log: seq<Write>, n: nat, i: nat)
    requires LegalLog(db, log) && n <= |log| && ColdAt(log[..n], i) && ColdIsFirst(db, log, i)
    ensures LegalLog(db, log[..n]) && ColdIsFirst(db, log[..n], i)
  {
    LogPrefix(db, log, n);
    LogPrefix(db, log[..n], i);
    assert log[..n][..i] == log[..i];
  }

  lemma DoneColdIsFirst(rules: Rules, db: Db, s: Scheduled, i: nat)
    requires Consistent(db) && !StaleActivity(rules, db, s.activity) && ColdAt(Done(rules, db, s), i)
    ensures LegalLog(db, Done(rules, db, s)) && ColdIsFirst(db, Done(rules, db, s), i)
  {
    var log := ActivityLog(rules, db, s.activity);
    ActivityColdIsFirst(rules, db, s.activity, i);
    if s.stopAfter < |log| {
      ColdInPrefix(db, log, s.stopAfter, i);
    }
  }

  /** Over every run of the pipeline in which no send starts with a stale attempt, every cold message is recorded on a
      lead uncontacted in all four senses - wherever the run is interrupted. */
  lemma {:induction false} RunsKeepThePromise(rules: Rules, db: Db, run: seq<Scheduled>)
    requires Consistent(db) && NoStaleActivity(rules, db, run)
    ensures LegalLog(db, RunLog(rules, db, run)) && ColdOnlyOnUncontacted(db, RunLog(rules, db, run))
  {
    if run != [] {
      var n := |run| - 1;
      var front := RunLog(rules, db, run[..n]);
      NoStaleFront(rules, db, run, n);
      RunsKeepThePromise(rules, db, run[..n]);
      RunsAreLegal(rules, db, run[..n]);
      DoneKeepsThePromise(rules, Exec(db, front), run[n]);
      PromiseConcat(db, front, Exec(db, front), Done(rules, Exec(db, front), run[n]));
    }
  }

  lemma NoStaleFront(rules: Rules, db: Db, run: seq<Scheduled>, n: nat)
    requires NoStaleActivity(rules, db, run) && n < |run|
    ensures NoStaleActivity(rules, db, run[..n])
    ensures !StaleActivity(rules, Exec(db, RunLog(rules, db, run[..n])), run[n].activity)
  {
    forall i | 0 <= i < n
      ensures !StaleActivity(rules, Exec(db, RunLog(rules, db, run[..n][..i])), run[..n][i].activity)
    {
      assert run[..n][..i] == run[..i];
    }
  }

  lemma DoneKeepsThePromise(rules: Rules, db: Db, s: Scheduled)
    requires Consistent(db) && !StaleActivity(rules, db, s.activity)
    ensures LegalLog(db, Done(rules, db, s)) && ColdOnlyOnUncontacted(db, Done(rules, db, s))
  {
    DoneIsLegal(rules, db, s);
    forall i: nat | ColdAt(Done(rules, db, s), i)
      ensures ColdIsFirst(db, Done(rules, db, s), i)
    {
      DoneColdIsFirst(rules, db, s, i);
    }
  }

  lemma PromiseConcat(db: Db, front: seq<Write>, mid: Db, done: seq<Write>)
    requires Run(db, front) == Some(mid) && ColdOnlyOnUncontacted(db, front)
    requires LegalLog(mid, done) && ColdOnlyOnUncontacted(mid, done)
    ensures LegalLog(db, front + done) && ColdOnlyOnUncontacted(db, front + done)
  {
    RunConcat(db, front, done);
    forall i: nat | ColdAt(front + done, i)
      ensures ColdIsFirst(db, front + done, i)
    {
      if i < |front| {
        assert ColdIsFirst(db, front, i);
        LogPrefix(db, front, i);
        assert (front + done)[..i] == front[..i];
      } else {
        assert ColdIsFirst(mid, done, i - |front|);
        ColdBehindPrefix(db, front, mid, done, i);
      }
    }
  }

  /** Hence no lineage of leads ever has a second cold message of such a run on record. */
  lemma NeverTwiceOnRecord(rules: Rules, db: Db, run: seq<Scheduled>, i: nat, j: nat)
    requires Consistent(db) && NoStaleActivity(rules, db, run)
    requires i < j && ColdAt(RunLog(rules, db, run), i) && ColdAt(RunLog(rules, db, run), j)
    ensures var log := RunLog(rules, db, run); log[j].msg.lead != Heir(log[i + 1..j], log[i].msg.lead)
  {
    RunsKeepThePromise(rules, db, run);
    NoSecondColdMessage(db, RunLog(rules, db, run), i, j);
  }

  // ---------- bot replies over a run ----------

  ghost predicate NoBotReply(log: seq<Write>) {
    forall i: nat :: i < |log| && log[i].Say? ==> !IsCuriosity(log[i].msg)
  }

  ghost predicate NoMerge(log: seq<Write>) {
    forall i: nat :: i < |log| ==> !log[i].Absorb?
  }

  /** Merges aside, the only bot replies of the log were decided by a turn that saw the last `n` messages. */
  ghost predicate Decided(db: Db, log: seq<Write>, n: nat)
    requires LegalLog(db, log)
  {
    forall i: nat :: i < |log| ==> (LogPrefix(db, log, i); TurnDecides(Replay(db, log[..i]), log[i], n))
  }

  lemma DecidedConcat(db: Db, a: seq<Write>, mid: Db, b: seq<Write>, n: nat)
    requires Run(db, a) == Some(mid) && LegalLog(mid, b) && Decided(db, a, n) && Decided(mid, b, n)
    ensures LegalLog(db, a + b) && Decided(db, a + b, n)
  {
    RunConcat(db, a, b);
    forall i: nat | i < |a + b|
      ensures (LogPrefix(db, a + b, i); TurnDecides(Replay(db, (a + b)[..i]), (a + b)[i], n))
    {
      LogPrefix(db, a + b, i);
      if i < |a| {
        LogPrefix(db, a, i);
        assert (a + b)[..i] == a[..i];
      } else {
        var k := i - |a|;
        LogPrefix(mid, b, k);
        RunConcat(db, a, b[..k]);
        assert (a + b)[..i] == a + b[..k] && (a + b)[i] == b[k];
      }
    }
  }

  lemma DecidedPrefix(db: Db, log: seq<Write>, k: nat, n: nat)
    requires LegalLog(db, log) && k <= |log| && Decided(db, log, n)
    ensures LegalLog(db, log[..k]) && Decided(db, log[..k], n)
  {
    LogPrefix(db, log, k);
    forall i: nat | i < k
      ensures (LogPrefix(db, log[..k], i); TurnDecides(Replay(db, log[..k][..i]), log[..k][i], n))
    {
      LogPrefix(db, log[..k], i);
      LogPrefix(db, log, i);
      assert log[..k][..i] == log[..i];
    }
  }

  lemma SyncIsDecided(rules: Rules, db: Db, id: LeadId, scraped: seq<Scraped>, n: nat)
    requires Consistent(db) && id in db.leads
    ensures var says := Says(SyncedRows(rules, db.messages, id, scraped));
      Run(db, says) == Some(SyncedDb(rules, db, id, scraped)) && Consistent(SyncedDb(rules, db, id, scraped)) &&
          Decided(db, says, n)
  {
    var rows := SyncedRows(rules, db.messages, id, scraped);
    SyncedRowsArePlain(rules, db.messages, id, scraped);
    SaysAreQuiet(rows);
    SaysRun(db, rows);
    RunKeepsIndices(db, Says(rows));
  }

  lemma ReplyIsDecided(db: Db, id: LeadId, seen: LeadStatus, inboundNew: nat, scrapedReply: bool, now: Time, n: nat)
    requires Consistent(db) && id in db.leads
    ensures var log := ReplyLog(db, id, seen, inboundNew, scrapedReply, now).0;
      var after := AfterReply(db, id, seen, inboundNew, scrapedReply, now);
      Run(db, log) == Some(after) && Consistent(after) && Decided(db, log, n)
  {
    ReplyRuns(db, id, seen, inboundNew, scrapedReply, now);
    RunKeepsIndices(db, ReplyLog(db, id, seen, inboundNew, scrapedReply, now).0);
  }

  lemma PollIsDecided(rules: Rules, db: Db, id: LeadId, seen: LeadStatus, scraped: seq<Scraped>, scrapedReply: bool,
                      reading: Option<Reading>, history: nat, now: Time)
    requires Consistent(db) && id in db.leads
    ensures var log := Poll(rules, db, id, seen, scraped, scrapedReply, reading, history, now);
      LegalLog(db, log) && Decided(db, log, history)
  {
    var rows := SyncedRows(rules, db.messages, id, scraped);
    var synced, inboundNew := SyncedDb(rules, db, id, scraped), CountDir(rows, Inbound);
    SyncIsDecided(rules, db, id, scraped, history);
    ReplyIsDecided(synced, id, seen, inboundNew, scrapedReply, now, history);
    var reply := ReplyLog(synced, id, seen, inboundNew, scrapedReply, now);
    var after := AfterReply(synced, id, seen, inboundNew, scrapedReply, now);
    var head := Says(rows) + reply.0;
    DecidedConcat(db, Says(rows), synced, reply.0, history);
    RunConcat(db, Says(rows), reply.0);
    if reply.1 {
      TurnDecidesItsReply(after, id, reading, history, now);
      DecidedConcat(db, head, after, RunTurn(after, id, reading, history, now).log, history);
    } else {
      assert head + [] == head;
    }
  }

  lemma SendActivitiesWriteNoBotReply(rules: Rules, db: Db, t: Activity)
    requires Admissible(db, t) && !t.PollActivity?
    ensures NoBotReply(ActivityLog(rules, db, t))
  {
    match t
    case SendActivity(id, job) => SendLeadWritesNoBotReply(rules, db, id, job);
    case HarvestSendActivity(id, url, title, job) => HarvestSendWritesNoBotReply(rules, db, id, url, title, job);
    case _ =>
  }

  lemma SendLeadWritesNoBotReply(rules: Rules, db: Db, id: LeadId, job: Job)
    requires id in db.leads && JobNames(db, job)
    ensures NoBotReply(SendLead(rules, db, id, job).log)
  {
    var log := SendLead(rules, db, id, job).log;
    var p := PhaseForStatus(db.leads[id].status);
    forall i: nat | i < |log| && log[i].Say?
      ensures !IsCuriosity(log[i].msg)
    {
      SendsWriteNoBotReply(rules, db, id, p.value, job, i);
    }
  }

  lemma HarvestSendWritesNoBotReply(rules: Rules, db: Db, id: LeadId, url: string, title: Option<string>, job: Job)
    requires id in db.leads && JobNames(db, job)
    ensures NoBotReply(HarvestSend(rules, db, id, url, title, job).log)
  {
    var log := HarvestSend(rules, db, id, url, title, job).log;
    var bind, b := BindLog(db.leads[id], id, url, title), Bound(db, id, url, title);
    forall i: nat | i < |log| && log[i].Say?
      ensures !IsCuriosity(log[i].msg)
    {
      assert log[i] == SendCore(rules, b, id, Phase1Cold, job).log[i - |bind|];
      SendsWriteNoBotReply(rules, b, id, Phase1Cold, job, i - |bind|);
    }
  }

  lemma DoneIsDecided(rules: Rules, db: Db, s: Scheduled, n: nat)
    requires Consistent(db) && (s.activity.PollActivity? ==> s.activity.history == n)
    ensures LegalLog(db, Done(rules, db, s)) && Decided(db, Done(rules, db, s), n)
  {
    DoneIsLegal(rules, db, s);
    if Admissible(db, s.activity) {
      var t, log := s.activity, ActivityLog(rules, db, s.activity);
      ActivityRuns(rules, db, t);
      if t.PollActivity? {
        PollIsDecided(rules, db, t.lead, t.seen, t.scraped, t.scrapedReply, t.reading, t.history, t.now);
      } else {
        SendActivitiesWriteNoBotReply(rules, db, t);
      }
      if s.stopAfter < |log| {
        DecidedPrefix(db, log, s.stopAfter, n);
      }
    }
  }

  lemma {:induction false} RunsAreDecided(rules: Rules, db: Db, run: seq<Scheduled>, n: nat)
    requires Consistent(db)
    requires forall i :: 0 <= i < |run| && run[i].activity.PollActivity? ==> run[i].activity.history == n
    ensures LegalLog(db, RunLog(rules, db, run)) && Decided(db, RunLog(rules, db, run), n)
  {
    if run != [] {
      var k := |run| - 1;
      var front := RunLog(rules, db, run[..k]);
      RunsAreDecided(rules, db, run[..k], n);
      RunsAreLegal(rules, db, run[..k]);
      DoneIsDecided(rules, Exec(db, front), run[k], n);
      DecidedConcat(db, front, Exec(db, front), Done(rules, Exec(db, front), run[k]), n);
    }
  }

  /** Over every run that merges no leads, any two bot replies on one lead have at least the history limit's number of
      that lead's messages between them. */
  lemma RunsSpaceBotReplies(rules: Rules, db: Db, run: seq<Scheduled>, n: nat)
    requires Consistent(db) && AllSpaced(db, n) && NoMerge(RunLog(rules, db, run))
    requires forall i :: 0 <= i < |run| && run[i].activity.PollActivity? ==> run[i].activity.history == n
    ensures AllSpaced(Exec(db, RunLog(rules, db, run)), n)
  {
    var log := RunLog(rules, db, run);
    RunsAreDecided(rules, db, run, n);
    BotRepliesAreSpaced(db, log, n);
    RunIsExec(db, log);
  }
}
