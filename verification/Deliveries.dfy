/** What reaches the host, as opposed to what is recorded: an attempt that fails after the send button was pressed
    leaves no trace, and the retry and the next run write again. */
module Deliveries {
  import opened Records
  import opened Gate
  import opened Identity
  import opened Merge
  import opened Writes
  import opened Sync
  import opened Sending
  import opened ColdSafety
  import opened Pipeline
  import opened Progress

  /** The message reached the host, whatever the code made of the attempt. */
  predicate Posted(a: Attempt) {
    match a
    case Delivers(_) => true
    case Blocks(_, posted) => posted
    case Breaks(posted) => posted
    case _ => false
  }

  /** The first attempt failed, so there is a second one. */
  predicate Retried(rules: Rules, db: Db, id: LeadId, job: Job)
    requires id in db.leads && JobNames(db, job)
  {
    TryOnce(rules, db, id, job.ctx, job.first).result.Failed?
  }

  /** Messages of this send that reach the host. */
  function Posts(rules: Rules, db: Db, id: LeadId, job: Job): (n: nat)
    requires id in db.leads && JobNames(db, job)
  {
    (if Posted(job.first) then 1 else 0) + if Retried(rules, db, id, job) && Posted(job.second) then 1 else 0
  }

  // ---------- one send ----------

  /** Some attempt reaches a host that was written to before: the store says so by then, the first attempt reached it,
      or - `earlier` - an attempt of an earlier run did. */
  ghost predicate ReachesAgain(rules: Rules, db: Db, id: LeadId, job: Job, earlier: bool)
    requires id in db.leads && JobNames(db, job)
  {
    || (Posted(job.first) && (earlier || Contacted(db, id)))
    || (Retried(rules, db, id, job) && Posted(job.second)
        && (earlier || Posted(job.first) || Contacted(AfterFailure(rules, db, id, job.first), id)))
  }

  /** What makes a retry unsafe, known before it starts: the first attempt reached the host unseen, or it copied our own
      message from a thread it could not claim. */
  predicate UnsafeRetry(rules: Rules, db: Db, id: LeadId, a: Attempt) {
    (a.Breaks? && a.posted) || StaleRetry(rules, db, id, a)
  }

  /** When a cold send behind an open gate writes to a host already written to. */
  lemma SendReachesAgain(rules: Rules, db: Db, id: LeadId, job: Job, earlier: bool)
    requires Consistent(db) && id in db.leads && GateReason(rules, db, id).None? && JobFits(db, id, true, job)
    ensures ReachesAgain(rules, db, id, job, earlier)
       <==> (earlier && Posts(rules, db, id, job) > 0) || (UnsafeRetry(rules, db, id, job.first) && Posted(job.second))
  {
    OpenGateMeansUncontacted(rules, db, id);
    ReachesAgainWhenClean(rules, db, id, job, earlier);
  }

  /** The same for the send behind a harvested listing, whose attempts meet the store with the listing bound. */
  lemma HarvestReachesAgain(rules: Rules, db: Db, id: LeadId, url: string, title: Option<string>, b: Db, job: Job,
                            earlier: bool)
    requires Consistent(db) && id in db.leads && GateReason(rules, db, id).None? && JobFits(db, id, true, job)
    requires b == Bound(db, id, url, title)
    ensures ReachesAgain(rules, b, id, job, earlier)
       <==> (earlier && Posts(rules, b, id, job) > 0) || (UnsafeRetry(rules, db, id, job.first) && Posted(job.second))
  {
    OpenGateMeansUncontacted(rules, db, id);
    BoundIsClean(rules, db, id, url, title, job);
    ReachesAgainWhenClean(rules, b, id, job, earlier);
  }

  lemma BoundIsClean(rules: Rules, db: Db, id: LeadId, url: string, title: Option<string>, job: Job)
    requires Consistent(db) && id in db.leads && !Contacted(db, id) && JobFits(db, id, true, job)
    ensures var b := Bound(db, id, url, title);
      && Consistent(b) && !Contacted(b, id) && JobFits(b, id, true, job)
      && (UnsafeRetry(rules, b, id, job.first) <==> UnsafeRetry(rules, db, id, job.first))
  {
    BindingFits(db, id, url, title, job);
    BindingKeepsContact(db, id, url, title, 0);
    StaleAfterBinding(rules, db, Bound(db, id, url, title), id, job.first);
  }

  lemma ReachesAgainWhenClean(rules: Rules, db: Db, id: LeadId, job: Job, earlier: bool)
    requires Consistent(db) && id in db.leads && !Contacted(db, id) && JobFits(db, id, true, job)
    ensures ReachesAgain(rules, db, id, job, earlier)
       <==> (earlier && Posts(rules, db, id, job) > 0) || (UnsafeRetry(rules, db, id, job.first) && Posted(job.second))
  {
    StaleIsRetried(rules, db, id, job);
    if Retried(rules, db, id, job) {
      ContactedBetween(rules, db, id, job);
    }
  }

  lemma StaleIsRetried(rules: Rules, db: Db, id: LeadId, job: Job)
    requires Consistent(db) && id in db.leads && JobFits(db, id, true, job)
    ensures UnsafeRetry(rules, db, id, job.first) ==> Retried(rules, db, id, job)
    ensures Retried(rules, db, id, job) && Posted(job.first) ==> job.first.Breaks?
  {
    if job.first.Finds? {
      FoundThreadRuns(rules, db, id, job.ctx, job.first);
    }
  }

  lemma ContactedBetween(rules: Rules, db: Db, id: LeadId, job: Job)
    requires Consistent(db) && id in db.leads && !Contacted(db, id) && JobFits(db, id, true, job)
    requires Retried(rules, db, id, job)
    ensures Contacted(AfterFailure(rules, db, id, job.first), id) <==> StaleRetry(rules, db, id, job.first)
  {
    TryRuns(rules, db, id, job.ctx, true, job.first);
    if job.first.Finds? {
      OutboundRowsAppear(rules, db.messages, id, job.first.scraped);
    }
  }

  // ---------- what the counters see ----------

  /** Messages of a send of the outbound job that reach the host, in whatever phase the lead is. */
  function SendPosts(rules: Rules, db: Db, id: LeadId, job: Job): (n: nat)
    requires id in db.leads && JobNames(db, job)
    ensures n <= 2
  {
    var status := db.leads[id].status;
    if (GateReason(rules, db, id).Some? && status.LeadDiscovered?) || PhaseForStatus(status).None? then 0
    else Posts(rules, db, id, job)
  }

  /** Messages that reach the host and are counted nowhere: those of an attempt that was repeated, of a last attempt
      that failed or was blocked, and of one whose delivery could not be entered. */
  function Vain(rules: Rules, db: Db, id: LeadId, job: Job): (n: nat)
    requires id in db.leads && JobNames(db, job)
  {
    if SendPosts(rules, db, id, job) == 0 then 0
    else
      var retried := Retried(rules, db, id, job);
      var last := if retried then job.second else job.first;
      (if retried && Posted(job.first) then 1 else 0)
      + if Posted(last) && (!last.Delivers? || SendLead(rules, db, id, job).outcome.Threw?) then 1 else 0
  }

  /** A send is counted once if it was sent and not at all otherwise; the rest of what reached the host is vain. */
  lemma CountedOrVain(rules: Rules, db: Db, id: LeadId, job: Job)
    requires id in db.leads && JobNames(db, job)
    ensures SendPosts(rules, db, id, job)
      == Vain(rules, db, id, job) + if SendLead(rules, db, id, job).outcome.WasSent? then 1 else 0
    ensures SendLead(rules, db, id, job).outcome.WasSkipped? ==> SendPosts(rules, db, id, job) <= 1
  {
    var t := Attempts(rules, db, id, job);
    LastAttemptDecides(rules, db, id, job);
    var p := PhaseForStatus(db.leads[id].status);
    if p.Some? {
      TailDecides(AfterAttempts(rules, db, id, job), id, p.value, job, t.result);
    }
  }

  lemma LastAttemptDecides(rules: Rules, db: Db, id: LeadId, job: Job)
    requires id in db.leads && JobNames(db, job)
    ensures var t := Attempts(rules, db, id, job); var last := if Retried(rules, db, id, job) then job.second
      else job.first;
      && (t.result.Sent? <==> last.Delivers?) && (t.result.Existing? ==> last.Finds?)
  {
  }

  lemma TailDecides(now: Db, id: LeadId, p: Phase, job: Job, result: Result)
    requires id in now.leads
    ensures var outcome := Tail(now, id, p, job, result).outcome;
      && (result.Sent? <==> outcome.WasSent? || outcome.Threw?) && (outcome.WasSkipped? <==> result.Existing?)
  {
  }

  // ---------- chances left to write to a lead ----------

  /** Cold messages the retry and the failure cap still allow to a lead: two for each failure not yet noted, at least
      two, and none once it counts as contacted. */
  ghost function Chances(db: Db, id: LeadId, cap: int): nat {
    if id in db.leads && !Contacted(db, id) then 2 * Max(1, cap - CountFailures(db.messages, id)) else 0
  }

  lemma {:induction false} FailuresAppend(a: seq<Message>, m: Message, id: LeadId)
    ensures CountFailures(a + [m], id) == CountFailures(a, id) + if IsFailureNote(m, id) then 1 else 0
  {
    assert (a + [m])[..|a|] == a;
  }

  lemma {:induction false} FailuresAfterTag(ms: seq<Message>, i: nat, intent: string, id: LeadId)
    requires i < |ms| && ms[i].direction.Inbound?
    ensures CountFailures(ms[i := ms[i].(intent := Some(intent))], id) == CountFailures(ms, id)
  {
    var n := ms[i := ms[i].(intent := Some(intent))];
    var k := |ms| - 1;
    if i == k {
      assert n[..k] == ms[..k];
    } else {
      FailuresAfterTag(ms[..k], i, intent, id);
      assert n[..k] == ms[..k][i := ms[i].(intent := Some(intent))];
    }
  }

  /** A merge hands the notes of the duplicate on to the survivor. */
  lemma {:induction false} FailuresAfterMerge(ms: seq<Message>, d: LeadId, c: LeadId, id: LeadId)
    requires c != d && id != d
    ensures CountFailures(Relabel(ms, d, c), id) == CountFailures(ms, id) + if id == c then CountFailures(ms, d) else 0
  {
    if ms != [] {
      var k := |ms| - 1;
      FailuresAfterMerge(ms[..k], d, c, id);
      assert Relabel(ms, d, c)[..k] == Relabel(ms[..k], d, c);
    }
  }

  lemma FailuresOnlyGrow(db: Db, w: Write, id: LeadId)
    requires Legal(db, w) && (w.Absorb? ==> id != w.duplicate)
    ensures CountFailures(Apply(db, w).messages, id) >= CountFailures(db.messages, id)
  {
    match w
    case Say(m) => FailuresAppend(db.messages, m, id);
    case Tag(i, t) => FailuresAfterTag(db.messages, i, t, id);
    case Absorb(c, d) => FailuresAfterMerge(db.messages, d, c, id);
    case _ =>
  }

  /** No write of the pipeline gives a lead new chances. */
  lemma WriteGivesNoChance(db: Db, w: Write, id: LeadId, cap: int)
    requires Consistent(db) && Legal(db, w) && !(w.Create? && w.id == id)
    ensures Chances(Apply(db, w), id, cap) <= Chances(db, id, cap)
  {
    if id in Apply(db, w).leads {
      assert id in db.leads;
      WriteKeepsContact(db, w, id);
      FailuresOnlyGrow(db, w, id);
    }
  }

  /** A new lead has all of them. */
  lemma CreationGivesChances(db: Db, id: LeadId, row: Lead, cap: int)
    requires Consistent(db) && Legal(db, Create(id, row))
    ensures Chances(Apply(db, Create(id, row)), id, cap) == 2 * Max(1, cap)
  {
    StrangersHaveNoNotes(db.messages, id);
  }

  lemma {:induction false} StrangersHaveNoNotes(ms: seq<Message>, id: LeadId)
    requires forall i :: 0 <= i < |ms| ==> ms[i].lead != id
    ensures CountFailures(ms, id) == 0
  {
    if ms != [] {
      StrangersHaveNoNotes(ms[..|ms| - 1], id);
    }
  }

  /** How often the log creates the lead: once, unless the id of a lead that was merged away is used again. */
  ghost function CountCreates(log: seq<Write>, id: LeadId): nat {
    if log == [] then 0
    else
      var w := log[|log| - 1];
      CountCreates(log[..|log| - 1], id) + if w.Create? && w.id == id then 1 else 0
  }

  lemma {:induction false} CreatesConcat(a: seq<Write>, b: seq<Write>, id: LeadId)
    ensures CountCreates(a + b, id) == CountCreates(a, id) + CountCreates(b, id)
    decreases |b|
  {
    if b == [] {
      assert a + b == a;
    } else {
      CreatesConcat(a, b[..|b| - 1], id);
      assert (a + b)[..|a + b| - 1] == a + b[..|b| - 1];
    }
  }

  lemma {:induction false} NoneCreated(log: seq<Write>, id: LeadId)
    requires NoCreate(log)
    ensures CountCreates(log, id) == 0
  {
    if log != [] {
      NoneCreated(log[..|log| - 1], id);
    }
  }

  /** The chances that the creations of a log give. */
  ghost function NewChances(log: seq<Write>, id: LeadId, cap: int): int { 2 * Max(1, cap) * CountCreates(log, id) }

  lemma NewChancesConcat(a: seq<Write>, b: seq<Write>, id: LeadId, cap: int)
    ensures NewChances(a + b, id, cap) == NewChances(a, id, cap) + NewChances(b, id, cap)
  {
    CreatesConcat(a, b, id);
    Distributes(2 * Max(1, cap), CountCreates(a, id), CountCreates(b, id));
  }

  lemma Distributes(k: int, x: int, y: int)
    ensures k * (x + y) == k * x + k * y
  {
  }

  lemma NewChancesOne(w: Write, id: LeadId, cap: int)
    ensures NewChances([w], id, cap) == if w.Create? && w.id == id then 2 * Max(1, cap) else 0
  {
    assert CountCreates([w][..0], id) == 0;
  }

  lemma OneWriteGives(db: Db, w: Write, id: LeadId, cap: int)
    requires Consistent(db) && Legal(db, w)
    ensures Chances(Apply(db, w), id, cap) <= Chances(db, id, cap) + NewChances([w], id, cap)
  {
    NewChancesOne(w, id, cap);
    if w.Create? && w.id == id {
      CreationGivesChances(db, id, w.row, cap);
    } else {
      WriteGivesNoChance(db, w, id, cap);
    }
  }

  /** A log gives no chances but those of the leads it creates. */
  lemma {:induction false} LogGivesChances(db: Db, log: seq<Write>, id: LeadId, cap: int)
    requires Consistent(db) && LegalLog(db, log)
    ensures Chances(Replay(db, log), id, cap) <= Chances(db, id, cap) + NewChances(log, id, cap)
  {
    if log != [] {
      var front, w := log[..|log| - 1], log[|log| - 1];
      LogGivesChances(db, front, id, cap);
      RunKeepsIndices(db, front);
      OneWriteGives(Replay(db, front), w, id, cap);
      NewChancesConcat(front, [w], id, cap);
      assert front + [w] == log;
    }
  }

  lemma LogGivesNoChance(db: Db, log: seq<Write>, id: LeadId, cap: int)
    requires Consistent(db) && LegalLog(db, log) && NoCreate(log)
    ensures Chances(Replay(db, log), id, cap) <= Chances(db, id, cap)
  {
    LogGivesChances(db, log, id, cap);
    NoneCreated(log, id);
  }

  /** What holds of the chances half-way through a log holds at its end. */
  lemma ChancesHalfWay(db: Db, a: seq<Write>, b: seq<Write>, id: LeadId, cap: int)
    requires Consistent(db) && LegalLog(db, a + b) && NoCreate(b)
    ensures LegalLog(db, a) && Chances(Replay(db, a + b), id, cap) <= Chances(Replay(db, a), id, cap)
  {
    RunConcat(db, a, b);
    RunKeepsIndices(db, a);
    LogGivesNoChance(Replay(db, a), b, id, cap);
  }

  // ---------- what one send costs ----------

  lemma ContactEndsChances(db: Db, w: Write, id: LeadId, cap: int)
    requires Legal(db, w)
    requires (w.Say? && w.msg.lead == id && w.msg.direction.Outbound?) || (w.Update? && w.id == id &&
      RowContacted(w.row))
    ensures Chances(Apply(db, w), id, cap) == 0
  {
    var n := Apply(db, w);
    if w.Say? {
      assert n.messages[|n.messages| - 1] == w.msg;
    }
  }

  lemma DeliveryUsesChances(now: Db, id: LeadId, thread: ThreadUrl, ctx: Ctx, cap: int)
    requires Consistent(now) && id in now.leads && now.leads[id].status.LeadDiscovered?
    ensures var log := Deliver(now, id, Phase1Cold, thread, ctx).log;
      LegalLog(now, log) && Chances(Replay(now, log), id, cap) == 0
  {
    var log := Deliver(now, id, Phase1Cold, thread, ctx).log;
    var say := Say(TemplateMessage(id, Phase1Cold, ctx));
    DeliverRuns(now, id, Phase1Cold, thread, ctx);
    assert log == [say] + log[1..];
    RunOne(now, say);
    ChancesHalfWay(now, [say], log[1..], id, cap);
    ContactEndsChances(now, say, id, cap);
  }

  lemma FailureUsesChances(now: Db, id: LeadId, text: string, cap: int)
    requires Consistent(now) && id in now.leads && now.leads[id].status.LeadDiscovered?
    ensures var log := FailureLog(now, id, text, cap);
      LegalLog(now, log) && Chances(Replay(now, log), id, cap) <= Max(0, Chances(now, id, cap) - 2)
  {
    var note := Say(FailureNote(id, text));
    RunOne(now, note);
    FailuresAppend(now.messages, note.msg, id);
    WriteGivesNoChance(now, note, id, cap);
    if CountFailures(now.messages, id) + 1 >= cap {
      var close := Update(id, now.leads[id].(status := ClosedLost, nextFollowUp := None));
      RunSnoc(now, [note], close);
      assert [note] + [close] == FailureLog(now, id, text, cap);
      ContactEndsChances(Apply(now, note), close, id, cap);
    } else if Contacted(now, id) {
      NotedStaysContacted(now, id, text);
    }
  }

  lemma NotedStaysContacted(now: Db, id: LeadId, text: string)
    requires id in now.leads && Contacted(now, id)
    ensures Contacted(Apply(now, Say(FailureNote(id, text))), id)
  {
    var n := Apply(now, Say(FailureNote(id, text)));
    if i :| 0 <= i < |now.messages| && now.messages[i].lead == id && now.messages[i].direction.Outbound? {
      assert n.messages[i] == now.messages[i];
    }
  }

  lemma TailUsesChances(now: Db, id: LeadId, job: Job, result: Result, cap: int)
    requires Consistent(now) && id in now.leads && now.leads[id].status.LeadDiscovered? && job.ctx.maxFailures == cap
    requires !result.Blocked? && !result.Existing?
    ensures var log := Tail(now, id, Phase1Cold, job, result).log;
      LegalLog(now, log) && Chances(Replay(now, log), id, cap) <= Max(0, Chances(now, id, cap) - 2)
  {
    if result.Sent? {
      DeliveryUsesChances(now, id, result.thread, job.ctx, cap);
    } else {
      FailureUsesChances(now, id, job.error, cap);
    }
  }

  /** A thread found to exist leaves no chance: the lead is merged away or counts as contacted. */
  lemma FoundEndsChances(rules: Rules, db: Db, id: LeadId, ctx: Ctx, a: Attempt, cap: int)
    requires Consistent(db) && id in db.leads && Fits(db, id, true, a)
    requires TryOnce(rules, db, id, ctx, a).result.Existing?
    ensures var log := TryOnce(rules, db, id, ctx, a).log;
      LegalLog(db, log) && Chances(Replay(db, log), id, cap) == 0
  {
    FoundThreadRuns(rules, db, id, ctx, a);
    if a.owner.Some? {
      YieldEndsChances(rules, db, id, ctx, a, cap);
    } else {
      ClaimEndsChances(rules, db, id, ctx, a, cap);
    }
  }

  lemma YieldEndsChances(rules: Rules, db: Db, id: LeadId, ctx: Ctx, a: Attempt, cap: int)
    requires Consistent(db) && id in db.leads && a.Finds? && a.owner.Some? && a.owner.value in db.leads
    requires FoundThread(rules, db, id, ctx, a).result.Existing? && LegalLog(db, FoundThread(rules, db, id, ctx, a).log)
    ensures Chances(Replay(db, FoundThread(rules, db, id, ctx, a).log), id, cap) == 0
  {
    var k := a.owner.value;
    var head, mark := HeadLog(rules, db, k, a.scraped, a.listings),
        MarkIfNew(MergedContacts(db, k, id), k, GuardContact(db.leads[k], ctx));
    assert FoundThread(rules, db, id, ctx, a).log == head + [Absorb(k, id)] + mark;
    MergedAwayHasNone(db, head, k, id, mark, cap);
  }

  lemma MergedAwayHasNone(db: Db, head: seq<Write>, k: LeadId, id: LeadId, rest: seq<Write>, cap: int)
    requires Consistent(db) && LegalLog(db, head + [Absorb(k, id)] + rest) && NoCreate(rest)
    ensures Chances(Replay(db, head + [Absorb(k, id)] + rest), id, cap) == 0
  {
    ChancesHalfWay(db, head + [Absorb(k, id)], rest, id, cap);
    RunSnoc(db, head, Absorb(k, id));
  }

  lemma ClaimEndsChances(rules: Rules, db: Db, id: LeadId, ctx: Ctx, a: Attempt, cap: int)
    requires Consistent(db) && id in db.leads && a.Finds? && a.owner.None?
    requires FoundThread(rules, db, id, ctx, a).result.Existing? && LegalLog(db, FoundThread(rules, db, id, ctx, a).log)
    ensures Chances(Replay(db, FoundThread(rules, db, id, ctx, a).log), id, cap) == 0
  {
    var head, mark := HeadLog(rules, db, id, a.scraped, a.listings),
        MarkIfNew(db.contacts, id, GuardContact(db.leads[id], ctx));
    var claim := Update(id, FoundRow(db.leads[id], a.url, a.scraped, ctx.now));
    assert FoundThread(rules, db, id, ctx, a).log == head + [claim] + mark;
    HeadRuns(rules, db, id, a.scraped, a.listings);
    RunSnoc(db, head, claim);
    assert NoCreate(mark);
    ChancesHalfWay(db, head + [claim], mark, id, cap);
    ContactEndsChances(HeadDb(rules, db, id, a.scraped, a.listings), claim, id, cap);
  }

  lemma AttemptsUseChances(rules: Rules, db: Db, id: LeadId, job: Job, cap: int)
    requires Consistent(db) && id in db.leads && JobFits(db, id, true, job)
    ensures var t := Attempts(rules, db, id, job);
      && LegalLog(db, t.log) && Consistent(Replay(db, t.log))
      && Chances(Replay(db, t.log), id, cap) <= (if t.result.Existing? then 0 else Chances(db, id, cap))
  {
    AttemptsRun(rules, db, id, true, job);
    var t := Attempts(rules, db, id, job);
    RunKeepsIndices(db, t.log);
    AttemptsCreateNothing(rules, db, id, job);
    LogGivesNoChance(db, t.log, id, cap);
    if t.result.Existing? {
      TryRuns(rules, db, id, job.ctx, true, job.first);
      if Retried(rules, db, id, job) {
        var first, between := TryOnce(rules, db, id, job.ctx, job.first).log, AfterFailure(rules, db, id, job.first);
        RunKeepsIndices(db, first);
        assert Fits(between, id, true, job.second);
        FoundEndsChances(rules, between, id, job.ctx, job.second, cap);
        RunConcat(db, first, TryOnce(rules, between, id, job.ctx, job.second).log);
      } else {
        FoundEndsChances(rules, db, id, job.ctx, job.first, cap);
      }
    }
  }

  /** A cold send that is not blocked uses up two chances, whether it was delivered, failed or met an existing
      thread. */
  lemma SendCoreUsesChances(rules: Rules, db: Db, id: LeadId, job: Job, cap: int)
    requires Consistent(db) && id in db.leads && db.leads[id].status.LeadDiscovered? && !Contacted(db, id)
    requires JobFits(db, id, true, job) && job.ctx.maxFailures == cap
    requires !SendCore(rules, db, id, Phase1Cold, job).outcome.WasBlocked?
    ensures var log := SendCore(rules, db, id, Phase1Cold, job).log;
      LegalLog(db, log) && Chances(Replay(db, log), id, cap) + 2 <= Chances(db, id, cap)
  {
    var t, core := Attempts(rules, db, id, job), SendCore(rules, db, id, Phase1Cold, job);
    AttemptsUseChances(rules, db, id, job, cap);
    if t.result.Existing? {
      assert core.log == t.log;
    } else {
      AttemptsRun(rules, db, id, true, job);
      var now := AfterAttempts(rules, db, id, job);
      TailUsesChances(now, id, job, t.result, cap);
      RunConcat(db, t.log, Tail(now, id, Phase1Cold, job, t.result).log);
    }
  }

  // ---------- over every run ----------

  /** A send that passes the gate to a lead still in discovery. */
  predicate IsColdSend(rules: Rules, db: Db, t: Activity) {
    match t
    case SendActivity(id, _) => id in db.leads && db.leads[id].status.LeadDiscovered? && GateReason(rules, db, id).None?
    case HarvestSendActivity(id, _, _, _) => id in db.leads && GateReason(rules, db, id).None?
    case _ => false
  }

  /** The store the attempts of a send meet. */
  function Prepared(db: Db, t: Activity): (r: Db)
    requires (t.SendActivity? || t.HarvestSendActivity?) && t.lead in db.leads
    ensures r.leads.Keys == db.leads.Keys
  {
    if t.SendActivity? then db else Bound(db, t.lead, t.url, t.title)
  }

  /** What an activity's cold message costs its host: all the messages its attempts deliver. */
  ghost function ColdPosts(rules: Rules, db: Db, t: Activity): (n: nat)
    ensures n <= 2
  {
    if IsColdSend(rules, db, t) && Admissible(db, t) then Posts(rules, Prepared(db, t), t.lead, t.job) else 0
  }

  function OutcomeOf(rules: Rules, db: Db, t: Activity): Outcome
    requires (t.SendActivity? || t.HarvestSendActivity?) && t.lead in db.leads && JobNames(db, t.job)
  {
    if t.SendActivity? then SendLead(rules, db, t.lead, t.job).outcome
    else HarvestSend(rules, db, t.lead, t.url, t.title, t.job).outcome
  }

  /** A send that leaves less behind than it should: it ended in a block, or the run stopped in the middle of it. */
  ghost predicate IsLoose(rules: Rules, db: Db, s: Scheduled) {
    && IsColdSend(rules, db, s.activity) && Admissible(db, s.activity)
    && (OutcomeOf(rules, db, s.activity).WasBlocked? || s.stopAfter < |ActivityLog(rules, db, s.activity)|)
  }

  lemma ActivityUsesChances(rules: Rules, db: Db, t: Activity, cap: int)
    requires Consistent(db) && Admissible(db, t) && IsColdSend(rules, db, t) && t.job.ctx.maxFailures == cap
    requires !OutcomeOf(rules, db, t).WasBlocked?
    ensures LegalLog(db, ActivityLog(rules, db, t))
    ensures Chances(Replay(db, ActivityLog(rules, db, t)), t.lead, cap) + 2 <= Chances(db, t.lead, cap)
  {
    OpenGateIsClean(rules, db, t.lead);
    match t
    case SendActivity(id, job) => SendCoreUsesChances(rules, db, id, job, cap);
    case HarvestSendActivity(id, url, title, job) => HarvestUsesChances(rules, db, id, url, title, job, cap);
    case _ =>
  }

  lemma BindingKeepsContact(db: Db, id: LeadId, url: string, title: Option<string>, cap: int)
    requires id in db.leads
    ensures var b := Bound(db, id, url, title);
      && Chances(b, id, cap) == Chances(db, id, cap) && b.leads[id].status == db.leads[id].status
      && (Contacted(b, id) <==> Contacted(db, id))
  {
  }

  lemma BindingKeepsChances(db: Db, id: LeadId, url: string, title: Option<string>, job: Job, cap: int)
    requires Consistent(db) && id in db.leads && JobFits(db, id, true, job)
    ensures var b := Bound(db, id, url, title);
      && Run(db, BindLog(db.leads[id], id, url, title)) == Some(b) && Consistent(b) && JobFits(b, id, true, job)
      && Chances(b, id, cap) == Chances(db, id, cap) && b.leads[id].status == db.leads[id].status
      && (Contacted(b, id) <==> Contacted(db, id))
  {
    var b := Bound(db, id, url, title);
    BindingKeepsContact(db, id, url, title, cap);
    BindRuns(db, id, url, title);
    RunKeepsIndices(db, BindLog(db.leads[id], id, url, title));
    FitsAfterBinding(db, b, id, job.first);
    FitsAfterBinding(db, b, id, job.second);
  }

  lemma HarvestUsesChances(rules: Rules, db: Db, id: LeadId, url: string, title: Option<string>, job: Job, cap: int)
    requires Consistent(db) && id in db.leads && JobFits(db, id, true, job) && job.ctx.maxFailures == cap
    requires GateReason(rules, db, id).None? && !Contacted(db, id)
    requires !HarvestSend(rules, db, id, url, title, job).outcome.WasBlocked?
    ensures var log := HarvestSend(rules, db, id, url, title, job).log;
      LegalLog(db, log) && Chances(Replay(db, log), id, cap) + 2 <= Chances(db, id, cap)
  {
    var bind, b := BindLog(db.leads[id], id, url, title), Bound(db, id, url, title);
    BindingKeepsChances(db, id, url, title, job, cap);
    HarvestSendParts(rules, db, id, url, title, job);
    SendCoreUsesChances(rules, b, id, job, cap);
    RunConcat(db, bind, SendCore(rules, b, id, Phase1Cold, job).log);
  }

  /** Messages a run delivers to a lead under the cold template. An interrupted send counts with all it could
      deliver. */
  ghost function PostsTo(rules: Rules, db: Db, run: seq<Scheduled>, id: LeadId): nat {
    if run == [] then 0
    else
      var last := run[|run| - 1].activity;
      var now := Exec(db, RunLog(rules, db, run[..|run| - 1]));
      PostsTo(rules, db, run[..|run| - 1], id) + if IsColdSend(rules, now, last) &&
          last.lead == id then ColdPosts(rules, now, last) else 0
  }

  ghost function LooseTo(rules: Rules, db: Db, run: seq<Scheduled>, id: LeadId): nat {
    if run == [] then 0
    else
      var last := run[|run| - 1];
      var now := Exec(db, RunLog(rules, db, run[..|run| - 1]));
      LooseTo(rules, db, run[..|run| - 1], id) + if IsLoose(rules, now, last) && last.activity.lead == id then 1 else 0
  }

  /** The failure cap is the same for all sends of the run. */
  predicate SameCap(run: seq<Scheduled>, cap: int) {
    forall i :: 0 <= i < |run| && (run[i].activity.SendActivity? || run[i].activity.HarvestSendActivity?) ==>
        run[i].activity.job.ctx.maxFailures == cap
  }

  /** One more activity: what it posts is paid for by chances, unless it is loose, and only creations give new ones. */
  lemma DoneUsesChances(rules: Rules, db: Db, s: Scheduled, id: LeadId, cap: int)
    requires Consistent(db)
    requires s.activity.SendActivity? || s.activity.HarvestSendActivity? ==> s.activity.job.ctx.maxFailures == cap
    ensures LegalLog(db, Done(rules, db, s))
    ensures Chances(Replay(db, Done(rules, db, s)), id, cap)
      <= Chances(db, id, cap) + NewChances(Done(rules, db, s), id, cap)
    ensures IsColdSend(rules, db, s.activity) && s.activity.lead == id && !IsLoose(rules, db, s)
        ==> Chances(Replay(db, Done(rules, db, s)), id, cap) + ColdPosts(rules, db, s.activity) <= Chances(db, id, cap)
  {
    DoneIsLegal(rules, db, s);
    LogGivesChances(db, Done(rules, db, s), id, cap);
    if IsColdSend(rules, db, s.activity) && s.activity.lead == id && !IsLoose(rules, db, s) {
      if Admissible(db, s.activity) {
        ActivityUsesChances(rules, db, s.activity, cap);
      } else {
        NoneCreated([], id);
      }
    }
  }

  /** What the `n`-th activity of a run adds to the account of a lead. */
  lemma StepIsPaid(rules: Rules, db: Db, run: seq<Scheduled>, n: nat, id: LeadId, cap: int)
    requires Consistent(db) && SameCap(run, cap) && n == |run| - 1
    ensures var front, log := RunLog(rules, db, run[..n]), RunLog(rules, db, run);
      PostsTo(rules, db, run, id) + Chances(Exec(db, log), id, cap)
      <= PostsTo(rules, db, run[..n], id) + Chances(Exec(db, front), id, cap)
          + NewChances(log, id, cap) - NewChances(front, id, cap)
         + 2 * (LooseTo(rules, db, run, id) - LooseTo(rules, db, run[..n], id))
  {
    var front := RunLog(rules, db, run[..n]);
    var now := Exec(db, front);
    var done := Done(rules, now, run[n]);
    RunsAreLegal(rules, db, run[..n]);
    DoneUsesChances(rules, now, run[n], id, cap);
    NewChancesConcat(front, done, id, cap);
    ExecConcat(db, front, done);
    RunIsExec(now, done);
    CreationsOnlyGive(done, id, cap);
  }

  lemma CreationsOnlyGive(log: seq<Write>, id: LeadId, cap: int)
    ensures NewChances(log, id, cap) >= 0
  {
  }

  /** Over every run - merges, polls, repairs and interruptions included - the cold messages a host gets as one lead,
      recorded or not, are at most the chances it had at the start, those of a new lead if the run creates it, and two
      for each send that was blocked or cut short. */
  lemma {:induction false} PostsAreBounded(rules: Rules, db: Db, run: seq<Scheduled>, id: LeadId, cap: int)
    requires Consistent(db) && SameCap(run, cap)
    ensures PostsTo(rules, db, run, id) + Chances(Exec(db, RunLog(rules, db, run)), id, cap)
         <= Chances(db, id, cap) + NewChances(RunLog(rules, db, run), id, cap) + 2 * LooseTo(rules, db, run, id)
  {
    if run == [] {
      CreationsOnlyGive([], id, cap);
    } else {
      var n := |run| - 1;
      PostsAreBounded(rules, db, run[..n], id, cap);
      StepIsPaid(rules, db, run, n, id, cap);
    }
  }

  lemma CreatedOnce(log: seq<Write>, id: LeadId, cap: int)
    requires CountCreates(log, id) <= 1
    ensures NewChances(log, id, cap) <= 2 * Max(1, cap)
  {
    if CountCreates(log, id) == 0 {
      assert NewChances(log, id, cap) == 2 * Max(1, cap) * 0;
    } else {
      assert NewChances(log, id, cap) == 2 * Max(1, cap) * 1;
    }
  }

  lemma UnknownHasNone(db: Db, id: LeadId, cap: int)
    requires id !in db.leads
    ensures Chances(db, id, cap) == 0
  {
  }

  /** For a lead that the run discovers: the chances of a new lead. */
  lemma DiscoveredIsBounded(rules: Rules, db: Db, run: seq<Scheduled>, id: LeadId, cap: int)
    requires Consistent(db) && SameCap(run, cap) && id !in db.leads && CountCreates(RunLog(rules, db, run), id) <= 1
    ensures PostsTo(rules, db, run, id) <= 2 * Max(1, cap) + 2 * LooseTo(rules, db, run, id)
  {
    PostsAreBounded(rules, db, run, id, cap);
    UnknownHasNone(db, id, cap);
    CreatedOnce(RunLog(rules, db, run), id, cap);
  }

  /** A message of the run reached the host under this lead or one that was merged into it. */
  ghost predicate ReachedBefore(rules: Rules, db: Db, run: seq<Scheduled>, id: LeadId) {
    exists l :: PostsTo(rules, db, run, l) > 0 && Heir(RunLog(rules, db, run), l) == id
  }

  /** Exactly when a cold send at the end of a run writes to a host already written to - by the store's account, by its
      own first attempt, or by a message of the run that the code may have missed. */
  lemma ReachesAgainIff(rules: Rules, db: Db, run: seq<Scheduled>, id: LeadId, job: Job)
    requires Consistent(db) && IsColdSend(rules, Exec(db, RunLog(rules, db, run)), SendActivity(id, job))
    requires Admissible(Exec(db, RunLog(rules, db, run)), SendActivity(id, job))
    ensures var now, earlier := Exec(db, RunLog(rules, db, run)), ReachedBefore(rules, db, run, id);
      ReachesAgain(rules, now, id, job, earlier)
      <==> (earlier && ColdPosts(rules, now, SendActivity(id, job)) > 0)
           || (UnsafeRetry(rules, now, id, job.first) && Posted(job.second))
  {
    RunsAreLegal(rules, db, run);
    SendReachesAgain(rules, Exec(db, RunLog(rules, db, run)), id, job, ReachedBefore(rules, db, run, id));
  }

  /** The same for the send behind a harvested listing. */
  lemma HarvestReachesAgainIff(rules: Rules, db: Db, run: seq<Scheduled>, t: Activity)
    requires Consistent(db) && t.HarvestSendActivity? && IsColdSend(rules, Exec(db, RunLog(rules, db, run)), t)
    requires Admissible(Exec(db, RunLog(rules, db, run)), t)
    ensures var now, earlier := Exec(db, RunLog(rules, db, run)), ReachedBefore(rules, db, run, t.lead);
      ReachesAgain(rules, Prepared(now, t), t.lead, t.job, earlier)
      <==> (earlier && ColdPosts(rules, now, t) > 0)
           || (UnsafeRetry(rules, now, t.lead, t.job.first) && Posted(t.job.second))
  {
    RunsAreLegal(rules, db, run);
    var now := Exec(db, RunLog(rules, db, run));
    HarvestReachesAgain(rules, now, t.lead, t.url, t.title, Prepared(now, t), t.job,
        ReachedBefore(rules, db, run, t.lead));
  }

  /** A delivery that was recorded is the last one: no later activity of the run sends the lead's heir a cold
      message. */
  lemma RecordedDeliveryIsLast(rules: Rules, db: Db, run: seq<Scheduled>, i: nat, t: Activity)
    requires Consistent(db) && ColdAt(RunLog(rules, db, run), i) && (t.SendActivity? || t.HarvestSendActivity?)
    requires var log := RunLog(rules, db, run); t.lead == Heir(log[i + 1..], log[i].msg.lead)
    ensures ColdPosts(rules, Exec(db, RunLog(rules, db, run)), t) == 0
  {
    var log := RunLog(rules, db, run);
    RunsAreLegal(rules, db, run);
    RecordedColdIsRefused(rules, db, log, i, |log|);
    assert log[..|log|] == log && log[i + 1..|log|] == log[i + 1..];
  }

  // ---------- the bound is reached, and where there is none ----------

  lemma NotesAreNotOutbound(ms: seq<Message>, m: Message, k: LeadId)
    requires !m.direction.Outbound?
    ensures HasOutbound(ms + [m], k) <==> HasOutbound(ms, k)
  {
    if i :| 0 <= i < |ms| && ms[i].lead == k && ms[i].direction.Outbound? {
      assert (ms + [m])[i] == ms[i];
    }
  }

  lemma NoteKeepsCluster(db: Db, m: Message, c: Cluster)
    requires !m.direction.Outbound?
    ensures ClusterContacted(db.(messages := db.messages + [m]), c) <==> ClusterContacted(db, c)
  {
    var n := db.(messages := db.messages + [m]);
    if i :| 0 <= i < |db.messages| && db.messages[i].lead in c.leadIds && db.messages[i].direction.Outbound? {
      assert n.messages[i] == db.messages[i];
    }
  }

  /** Notes of the system are no contact: every verdict of the gate stays as it was. */
  lemma NoteKeepsGate(rules: Rules, db: Db, m: Message, id: LeadId)
    requires id in db.leads && !m.direction.Outbound?
    ensures GateReason(rules, db.(messages := db.messages + [m]), id) == GateReason(rules, db, id)
  {
    NotesAreNotOutbound(db.messages, m, id);
    NoteKeepsCluster(db, m, ClusterOf(db, id, db.leads[id]));
    assert ClusterOf(db.(messages := db.messages + [m]), id, db.leads[id]) == ClusterOf(db, id, db.leads[id]);
  }

  /** The send button was pressed, and the attempt failed before a thread was seen. */
  const UNSEEN := Breaks(true)

  function UnseenJob(ctx: Ctx, error: string): Job { Job(ctx, UNSEEN, UNSEEN, error) }

  function BlockedJob(ctx: Ctx, block: BlockType): Job { Job(ctx, UNSEEN, Blocks(block, true), "") }

  /** Two attempts that meet no thread, the first one failing. */
  lemma FailedTwice(rules: Rules, db: Db, id: LeadId, job: Job)
    requires id in db.leads && job.first.Breaks? && !job.second.Finds?
    ensures JobNames(db, job) && JobFits(db, id, true, job)
    ensures Attempts(rules, db, id, job) == TryOnce(rules, db, id, job.ctx, job.second)
    ensures AfterAttempts(rules, db, id, job) == db
    ensures Posts(rules, db, id, job) == (if job.first.posted then 1 else 0) + if Posted(job.second) then 1 else 0
  {
  }

  lemma OpenSend(rules: Rules, db: Db, id: LeadId, job: Job)
    requires id in db.leads && db.leads[id].status.LeadDiscovered? && GateReason(rules, db, id).None?
    requires JobNames(db, job)
    ensures SendLead(rules, db, id, job) == SendCore(rules, db, id, Phase1Cold, job)
    ensures IsColdSend(rules, db, SendActivity(id, job))
  {
  }

  lemma UnseenPlan(rules: Rules, db: Db, id: LeadId, ctx: Ctx, error: string)
    requires id in db.leads && db.leads[id].status.LeadDiscovered? && GateReason(rules, db, id).None?
    ensures SendLead(rules, db, id, UnseenJob(ctx, error))
      == Plan(FailureLog(db, id, error, ctx.maxFailures), WasFailed)
  {
    var job := UnseenJob(ctx, error);
    FailedTwice(rules, db, id, job);
    OpenSend(rules, db, id, job);
    CoreAfter(rules, db, id, job, Tried([], Failed), db);
    FailedTail(db, id, job);
  }

  lemma FailedTail(db: Db, id: LeadId, job: Job)
    requires id in db.leads && db.leads[id].status.LeadDiscovered?
    ensures Tail(db, id, Phase1Cold, job, Failed) == Plan(FailureLog(db, id, job.error, job.ctx.maxFailures), WasFailed)
  {
  }

  lemma UnseenFailure(rules: Rules, db: Db, id: LeadId, ctx: Ctx, error: string)
    requires id in db.leads && db.leads[id].status.LeadDiscovered? && GateReason(rules, db, id).None?
    ensures var s := Scheduled(SendActivity(id, UnseenJob(ctx, error)), 2);
      && Done(rules, db, s) == FailureLog(db, id, error, ctx.maxFailures)
      && IsColdSend(rules, db, s.activity) && ColdPosts(rules, db, s.activity) == 2 && !IsLoose(rules, db, s)
  {
    FailedTwice(rules, db, id, UnseenJob(ctx, error));
    OpenSend(rules, db, id, UnseenJob(ctx, error));
    UnseenPlan(rules, db, id, ctx, error);
  }

  lemma NoteIsSaid(db: Db, note: Message)
    requires Consistent(db) && note.lead in db.leads && note.direction.System?
    ensures Exec(db, [Say(note)]) == db.(messages := db.messages + [note])
    ensures Consistent(db.(messages := db.messages + [note]))
  {
    RunOne(db, Say(note));
    RunIsExec(db, [Say(note)]);
    WriteKeepsIndices(db, Say(note));
  }

  lemma ChancesCount(db: Db, id: LeadId, cap: int)
    requires id in db.leads && !Contacted(db, id)
    ensures Chances(db, id, cap) == 2 * Max(1, cap - CountFailures(db.messages, id))
  {
  }

  lemma ClosedHasNoChance(db: Db, id: LeadId, error: string, cap: int)
    requires Consistent(db) && id in db.leads && db.leads[id].status.LeadDiscovered?
    requires CountFailures(db.messages, id) + 1 >= cap
    ensures Run(db, FailureLog(db, id, error, cap)).Some?
    ensures Consistent(Exec(db, FailureLog(db, id, error, cap)))
    ensures Chances(Exec(db, FailureLog(db, id, error, cap)), id, cap) == 0
  {
    var note, close := Say(FailureNote(id, error)),
        Update(id, db.leads[id].(status := ClosedLost, nextFollowUp := None));
    RunOne(db, note);
    WriteKeepsIndices(db, note);
    RunSnoc(db, [note], close);
    assert FailureLog(db, id, error, cap) == [note] + [close];
    RunIsExec(db, [note] + [close]);
    WriteKeepsIndices(Apply(db, note), close);
    ContactEndsChances(Apply(db, note), close, id, cap);
  }

  lemma FailureUsesTwo(db: Db, id: LeadId, error: string, cap: int)
    requires Consistent(db) && id in db.leads && db.leads[id].status.LeadDiscovered? && !Contacted(db, id)
    ensures var n := Exec(db, FailureLog(db, id, error, cap));
      && Consistent(n) && Chances(n, id, cap) + 2 == Chances(db, id, cap)
      && (Chances(n, id, cap) > 0 ==> n == db.(messages := db.messages + [FailureNote(id, error)]))
  {
    ChancesCount(db, id, cap);
    if CountFailures(db.messages, id) + 1 < cap {
      var n := db.(messages := db.messages + [FailureNote(id, error)]);
      NoteIsSaid(db, FailureNote(id, error));
      NotesAreNotOutbound(db.messages, FailureNote(id, error), id);
      FailuresAppend(db.messages, FailureNote(id, error), id);
      ChancesCount(n, id, cap);
    } else {
      ClosedHasNoChance(db, id, error, cap);
    }
  }

  /** The bound is exact: a send that fails after the button was pressed delivers two cold messages, is not loose and
      uses up exactly two chances, and as long as a chance is left the gate lets the next one through. */
  lemma UnseenSendIsExact(rules: Rules, db: Db, id: LeadId, ctx: Ctx, error: string)
    requires Consistent(db) && id in db.leads && GateReason(rules, db, id).None?
    ensures var s := Scheduled(SendActivity(id, UnseenJob(ctx, error)), 2); var n := Exec(db, Done(rules, db, s));
      && ColdPosts(rules, db, s.activity) == 2 && !IsLoose(rules, db, s) && Consistent(n)
      && Chances(n, id, ctx.maxFailures) + 2 == Chances(db, id, ctx.maxFailures)
      && (Chances(n, id, ctx.maxFailures) > 0 ==> id in n.leads && GateReason(rules, n, id).None?)
  {
    OpenGateMeansUncontacted(rules, db, id);
    UnseenFailure(rules, db, id, ctx, error);
    FailureUsesTwo(db, id, error, ctx.maxFailures);
    NoteKeepsGate(rules, db, FailureNote(id, error), id);
  }

  /** One more send at the end of a run adds what it does to the store the others left. */
  lemma OneMore(rules: Rules, db: Db, id: LeadId, run: seq<Scheduled>, s: Scheduled)
    requires s.activity.SendActivity? && s.activity.lead == id
    ensures var now := Exec(db, RunLog(rules, db, run));
      && Exec(db, RunLog(rules, db, run + [s])) == Exec(now, Done(rules, now, s))
      && PostsTo(rules, db, run + [s], id) == PostsTo(rules, db, run, id) + ColdPosts(rules, now, s.activity)
      && LooseTo(rules, db, run + [s], id) == LooseTo(rules, db, run, id) + if IsLoose(rules, now, s) then 1 else 0
  {
    var now := Exec(db, RunLog(rules, db, run));
    assert (run + [s])[..|run|] == run;
    ExecConcat(db, RunLog(rules, db, run), Done(rules, now, s));
  }

  /** A lead that has chances passes the gate. */
  ghost predicate OpenWhileChances(rules: Rules, db: Db, id: LeadId, cap: int) {
    Consistent(db) && (Chances(db, id, cap) > 0 ==> id in db.leads && GateReason(rules, db, id).None?)
  }

  lemma OneMoreUnseen(rules: Rules, db: Db, id: LeadId, ctx: Ctx, error: string, run: seq<Scheduled>)
    requires OpenWhileChances(rules, Exec(db, RunLog(rules, db, run)), id, ctx.maxFailures)
    requires Chances(Exec(db, RunLog(rules, db, run)), id, ctx.maxFailures) > 0
    ensures var longer := run + [Scheduled(SendActivity(id, UnseenJob(ctx, error)), 2)];
      && OpenWhileChances(rules, Exec(db, RunLog(rules, db, longer)), id, ctx.maxFailures)
      && Chances(Exec(db, RunLog(rules, db, longer)), id,
        ctx.maxFailures) + 2 == Chances(Exec(db, RunLog(rules, db, run)), id, ctx.maxFailures)
      && PostsTo(rules, db, longer, id) == PostsTo(rules, db, run, id) + 2
      && LooseTo(rules, db, longer, id) == LooseTo(rules, db, run, id)
  {
    OneMore(rules, db, id, run, Scheduled(SendActivity(id, UnseenJob(ctx, error)), 2));
    UnseenSendIsExact(rules, Exec(db, RunLog(rules, db, run)), id, ctx, error);
  }

  /** So the bound is reached: such sends go on until every chance has become a message. */
  lemma {:induction false} BoundIsReached(rules: Rules, db: Db, id: LeadId, ctx: Ctx, error: string,
                                          run: seq<Scheduled>) returns (longer: seq<Scheduled>)
    requires OpenWhileChances(rules, Exec(db, RunLog(rules, db, run)), id, ctx.maxFailures)
    ensures run <= longer
    ensures PostsTo(rules, db, longer, id)
      == PostsTo(rules, db, run, id) + Chances(Exec(db, RunLog(rules, db, run)), id, ctx.maxFailures)
    ensures LooseTo(rules, db, longer, id) == LooseTo(rules, db, run, id)
    decreases Chances(Exec(db, RunLog(rules, db, run)), id, ctx.maxFailures)
  {
    if Chances(Exec(db, RunLog(rules, db, run)), id, ctx.maxFailures) == 0 {
      longer := run;
    } else {
      OneMoreUnseen(rules, db, id, ctx, error, run);
      longer := BoundIsReached(rules, db, id, ctx, error,
          run + [Scheduled(SendActivity(id, UnseenJob(ctx, error)), 2)]);
    }
  }

  /** A retry that ends in a block leaves nothing behind, not even a failure note: a run of such sends delivers two
      messages each, without end. */
  lemma {:induction false} BlockedSendsAreUnbounded(rules: Rules, db: Db, id: LeadId, ctx: Ctx, block: BlockType,
                                                    n: nat) returns (run: seq<Scheduled>)
    requires id in db.leads && GateReason(rules, db, id).None?
    ensures |run| == n && forall i :: 0 <= i < n ==> run[i] == Scheduled(SendActivity(id, BlockedJob(ctx, block)), 2)
    ensures Exec(db, RunLog(rules, db, run)) == db && PostsTo(rules, db, run, id) == 2 * n
    ensures LooseTo(rules, db, run, id) == n
  {
    if n == 0 {
      run := [];
    } else {
      var front := BlockedSendsAreUnbounded(rules, db, id, ctx, block, n - 1);
      var s := Scheduled(SendActivity(id, BlockedJob(ctx, block)), 2);
      OneMore(rules, db, id, front, s);
      BlockedSend(rules, db, id, ctx, block);
      run := front + [s];
    }
  }

  lemma BlockedSend(rules: Rules, db: Db, id: LeadId, ctx: Ctx, block: BlockType)
    requires id in db.leads && GateReason(rules, db, id).None?
    ensures var s := Scheduled(SendActivity(id, BlockedJob(ctx, block)), 2);
      Done(rules, db, s) == [] && IsColdSend(rules, db, s.activity) && ColdPosts(rules, db, s.activity) == 2 &&
          IsLoose(rules, db, s)
  {
    var job := BlockedJob(ctx, block);
    FailedTwice(rules, db, id, job);
    OpenSend(rules, db, id, job);
    CoreAfter(rules, db, id, job, Tried([], Blocked(block)), db);
  }

  /** A failed follow-up leaves nothing behind either: the follow-up is due again, whatever reached the host. */
  lemma FailedFollowUpIsForgotten(rules: Rules, db: Db, id: LeadId, job: Job)
    requires Consistent(db) && id in db.leads && !db.leads[id].status.LeadDiscovered? && JobFits(db, id, false, job)
    ensures SendLead(rules, db, id, job).outcome.WasFailed? || SendLead(rules, db, id, job).outcome.WasBlocked?
       ==> SendLead(rules, db, id, job).log == []
  {
  }
}
