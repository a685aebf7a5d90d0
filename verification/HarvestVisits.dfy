/** One listing of a harvest: the host is stored and, when it is new or changed, written to at once. */
module HarvestVisits {
  import opened Records
  import opened Gate
  import opened Merge
  import opened Writes
  import opened Sync
  import opened Sending
  import opened ColdSafety
  import opened Harvesting
  import opened Store
  import opened ClusterMethods
  import opened SendMethods
  import opened HarvestMethods
  import opened Accounts
  import opened AccountBook
  import opened HarvestTrace

  /** What visiting a listing yields: no host to store, an error before anything is stored, or a host with the answers
      of the two lookups, the listing's title and what a send to the host meets. */
  datatype Offer =
    | NoHost
    | Unreadable
    | Host(h: Harvested, newId: LeadId, existing: Option<LeadId>, duplicate: Option<LeadId>, title: Option<string>,
        job: Job)

  function StoredBy(db: Db, o: Offer): Stored
    requires o.Host? && (o.existing.Some? ==> o.existing.value in db.leads)
    requires (o.duplicate.Some? ==> o.duplicate.value in db.leads) && (o.existing.None? ==> o.newId !in db.leads)
  {
    Upsert(db, o.h, o.newId, o.existing, o.duplicate)
  }

  /** The answers are right for the store, and those of the send for the store the upsert leaves. */
  ghost predicate OfferFits(db: Db, o: Offer) {
    o.Host? ==>
      && Storable(db, o.h, o.newId, o.existing, o.duplicate)
      && var stored := StoredBy(db, o);
      stored.id.Some? ==>
        var now := Exec(db, stored.log);
        stored.id.value in now.leads && JobFits(now, stored.id.value, true, o.job)
  }

  /** The host is written to at once when its row was created or changed. */
  predicate SendsNow(stored: Stored, immediate: bool) {
    immediate && stored.id.Some? && (stored.action.WasCreated? || stored.action.WasUpdated?)
  }

  /** `harvestListingLead` and the counting of its outcome: an error is logged and the listing counts for nothing. */
  ghost function Visit(rules: Rules, db: Db, o: Offer, immediate: bool): Plan
    requires OfferFits(db, o)
  {
    match o
    case NoHost => Plan([], Outcome.WasSkipped)
    case Unreadable => Plan([], Threw)
    case Host(h, _, _, _, title, job) =>
      var stored := StoredBy(db, o);
      if stored.action.MergeThrew? then Plan(stored.log, Threw)
      else if !SendsNow(stored, immediate) then Plan(stored.log, Outcome.WasSkipped)
      else
        var send := HarvestSend(rules, Exec(db, stored.log), stored.id.value, h.row.url, title, job);
        Plan(stored.log + send.log, send.outcome)
  }

  /** What becomes of a listing: the host is stored, and a message follows only when that is wanted at once and the row
      is new or changed - to the lead as stored, under the listing's own address. */
  lemma VisitMeans(rules: Rules, db: Db, o: Offer, immediate: bool)
    requires OfferFits(db, o) && o.Host?
    ensures var stored, plan := Upsert(db, o.h, o.newId, o.existing, o.duplicate), Visit(rules, db, o, immediate);
      && (stored.action == MergeThrew ==> plan == Plan(stored.log, Threw))
      && (stored.action.WasSkipped? || stored.action.WasUnchanged? ==>
        plan == Plan(stored.log, Outcome.WasSkipped))
      && ((stored.action == WasCreated || stored.action == WasUpdated) && !immediate ==>
        plan == Plan(stored.log, Outcome.WasSkipped))
      && ((stored.action == WasCreated || stored.action == WasUpdated) && immediate ==>
        && stored.id.Some? && stored.id.value in Exec(db, stored.log).leads
        && var send := HarvestSend(rules, Exec(db, stored.log), stored.id.value, o.h.row.url, o.title, o.job);
        plan == Plan(stored.log + send.log, send.outcome))
  {
  }

  lemma VisitRuns(rules: Rules, db: Db, o: Offer, immediate: bool)
    requires Consistent(db) && OfferFits(db, o)
    ensures LegalLog(db, Visit(rules, db, o, immediate).log)
  {
    if o.Host? {
      var stored := StoredBy(db, o);
      UpsertRuns(db, o.h, o.newId, o.existing, o.duplicate);
      RunIsExec(db, stored.log);
      RunKeepsIndices(db, stored.log);
      if SendsNow(stored, immediate) {
        var now := Exec(db, stored.log);
        HarvestSendRuns(rules, now, stored.id.value, o.h.row.url, o.title, o.job);
        RunConcat(db, stored.log, HarvestSend(rules, now, stored.id.value, o.h.row.url, o.title, o.job).log);
      }
    }
  }

  /** The visit comes to a send: the host is stored, to be written to at once, and the gate is open. */
  ghost predicate WritesTo(rules: Rules, db: Db, o: Offer, immediate: bool)
    requires OfferFits(db, o)
  {
    o.Host? && var stored := StoredBy(db, o);
    SendsNow(stored, immediate) && GateReason(rules, Exec(db, stored.log), stored.id.value).None?
  }

  /** The account table after a visit. */
  ghost function ChargedBy(rules: Rules, db: Db, o: Offer, immediate: bool, f: Fleet, k: AccountId, now: Time): Fleet
    requires OfferFits(db, o) && k in f.accounts
  {
    if WritesTo(rules, db, o, immediate) then Charged(f, k, Visit(rules, db, o, immediate).outcome, now) else f
  }

  lemma NothingWithoutASend(rules: Rules, db: Db, o: Offer, immediate: bool)
    requires OfferFits(db, o) && !WritesTo(rules, db, o, immediate)
    ensures Visit(rules, db, o, immediate).outcome.WasSkipped? || Visit(rules, db, o, immediate).outcome.Threw?
  {
  }

  /** `sendColdImmediatelyAfterHarvest`, with the account that carries it. */
  method SendColdAfterHarvest(db: Database, book: Book, k: AccountId, now: Time, rules: Rules, id: LeadId, url: string,
                              title: Option<string>, job: Job)
    returns (outcome: Outcome)
    requires db.Valid() && id in db.leads && JobFits(db.Snapshot(), id, true, job) && k in book.accounts
    modifies db, book
    ensures outcome == HarvestSend(rules, old(db.Snapshot()), id, url, title, job).outcome
    ensures Run(old(db.Snapshot()), HarvestSend(rules, old(db.Snapshot()), id, url, title, job).log)
      == Some(db.Snapshot())
    ensures book.Contents() == if GateReason(rules, old(db.Snapshot()), id).None?
      then Charged(old(book.Contents()), k, outcome, now) else old(book.Contents())
  {
    ghost var start := db.Snapshot();
    var reason, other := AssertColdOutboundAllowed(db, rules, id);
    if reason.Some? {
      return Outcome.WasSkipped;
    }
    OpenGateMeansUncontacted(rules, start, id);
    HarvestSendParts(rules, start, id, url, title, job);
    outcome := BindAndSend(db, book, k, now, rules, id, url, title, job);
  }

  /** Behind the gate: the listing, the wave, the send, and its outcome on the account. */
  method BindAndSend(db: Database, book: Book, k: AccountId, now: Time, rules: Rules, id: LeadId, url: string,
                     title: Option<string>, job: Job)
    returns (outcome: Outcome)
    requires db.Valid() && id in db.leads && db.leads[id].status.LeadDiscovered?
    requires JobFits(db.Snapshot(), id, true, job)
    requires k in book.accounts
    modifies db, book
    ensures outcome == SendCore(rules, Bound(old(db.Snapshot()), id, url, title), id, Phase1Cold, job).outcome
    ensures Run(old(db.Snapshot()), BindLog(old(db.leads)[id], id, url, title)
        + SendCore(rules, Bound(old(db.Snapshot()), id, url, title), id, Phase1Cold, job).log) == Some(db.Snapshot())
    ensures book.Contents() == Charged(old(book.Contents()), k, outcome, now)
  {
    ghost var start := db.Snapshot();
    BindToListing(db, id, url, title);
    BindingFits(start, id, url, title, job);
    RunConcat(start, BindLog(start.leads[id], id, url, title), SendCore(rules, db.Snapshot(), id, Phase1Cold, job).log);
    book.StartWave(k, now);
    outcome := SendAfterGate(db, rules, id, Phase1Cold, job);
    match outcome
    case WasSent => book.IncrementWaveProgress(k);
    case WasBlocked(b) => book.HandleAccountBlock(k, b, now);
    case _ =>
  }

  /** The visit, step by step on the database and the account table. */
  method VisitListing(db: Database, book: Book, k: AccountId, now: Time, rules: Rules, o: Offer, immediate: bool)
    returns (outcome: Outcome)
    requires db.Valid() && OfferFits(db.Snapshot(), o) && k in book.accounts
    modifies db, book
    ensures outcome == Visit(rules, old(db.Snapshot()), o, immediate).outcome
    ensures Run(old(db.Snapshot()), Visit(rules, old(db.Snapshot()), o, immediate).log) == Some(db.Snapshot())
    ensures db.Valid()
    ensures book.Contents() == ChargedBy(rules, old(db.Snapshot()), o, immediate, old(book.Contents()), k, now)
  {
    ghost var start := db.Snapshot();
    VisitRuns(rules, start, o, immediate);
    RunKeepsIndices(start, Visit(rules, start, o, immediate).log);
    match o
    case NoHost => outcome := Outcome.WasSkipped;
    case Unreadable => outcome := Threw;
    case Host(h, newId, existing, duplicate, title, job) =>
      ghost var log := StoredBy(start, o).log;
      var action, id := UpsertDiscoveredLead(db, h, newId, existing, duplicate);
      RunIsExec(start, log);
      RunKeepsIndices(start, log);
      if action.MergeThrew? {
        return Threw;
      }
      if immediate && id.Some? && (action.WasCreated? || action.WasUpdated?) {
        RunConcat(start, log, HarvestSend(rules, db.Snapshot(), id.value, h.row.url, title, job).log);
        outcome := SendColdAfterHarvest(db, book, k, now, rules, id.value, h.row.url, title, job);
      } else {
        outcome := Outcome.WasSkipped;
      }
  }

  // ---------- cold messages on record ----------

  /** Cold messages in the store. */
  ghost function CountCold(ms: seq<Message>): nat {
    if ms == [] then 0 else CountCold(ms[..|ms| - 1]) + if IsCold(ms[|ms| - 1]) then 1 else 0
  }

  ghost function ColdWrites(log: seq<Write>): nat {
    if log == [] then 0 else ColdWrites(log[..|log| - 1]) + if ColdAt(log, |log| - 1) then 1 else 0
  }

  lemma {:induction false} ColdWritesConcat(a: seq<Write>, b: seq<Write>)
    ensures ColdWrites(a + b) == ColdWrites(a) + ColdWrites(b)
    decreases |b|
  {
    if b == [] {
      assert a + b == a;
    } else {
      ColdWritesConcat(a, b[..|b| - 1]);
      assert (a + b)[..|a + b| - 1] == a + b[..|b| - 1];
    }
  }

  lemma {:induction false} QuietMeansNoCold(log: seq<Write>)
    requires forall i: nat :: !ColdAt(log, i)
    ensures ColdWrites(log) == 0
  {
    if log != [] {
      var front := log[..|log| - 1];
      forall i: nat
        ensures !ColdAt(front, i)
      {
        assert !ColdAt(log, i);
      }
      QuietMeansNoCold(front);
      assert !ColdAt(log, |log| - 1);
    }
  }

  lemma {:induction false} ColdAfterMerge(ms: seq<Message>, d: LeadId, c: LeadId)
    ensures CountCold(Relabel(ms, d, c)) == CountCold(ms)
  {
    if ms != [] {
      ColdAfterMerge(ms[..|ms| - 1], d, c);
      assert Relabel(ms, d, c)[..|ms| - 1] == Relabel(ms[..|ms| - 1], d, c);
    }
  }

  lemma {:induction false} ColdAfterTag(ms: seq<Message>, i: nat, intent: string)
    requires i < |ms| && ms[i].direction.Inbound?
    ensures CountCold(ms[i := ms[i].(intent := Some(intent))]) == CountCold(ms)
  {
    var n, k := ms[i := ms[i].(intent := Some(intent))], |ms| - 1;
    if i == k {
      assert n[..k] == ms[..k];
    } else {
      ColdAfterTag(ms[..k], i, intent);
      assert n[..k] == ms[..k][i := ms[i].(intent := Some(intent))];
    }
  }

  /** Cold messages enter the store by being recorded and in no other way, and none is lost in a merge. */
  lemma {:induction false} RunCountsCold(db: Db, log: seq<Write>)
    requires LegalLog(db, log)
    ensures CountCold(Replay(db, log).messages) == CountCold(db.messages) + ColdWrites(log)
  {
    if log != [] {
      var front, w := log[..|log| - 1], log[|log| - 1];
      RunCountsCold(db, front);
      var now := Replay(db, front);
      match w
      case Say(m) => assert (now.messages + [m])[..|now.messages|] == now.messages;
      case Tag(i, t) => ColdAfterTag(now.messages, i, t);
      case Absorb(c, d) => ColdAfterMerge(now.messages, d, c);
      case _ =>
    }
  }

  // ---------- deliveries that cannot be entered ----------

  /** The store on which the send of a visit makes its attempts. */
  ghost function SendStore(db: Db, o: Offer): Db
    requires o.Host? && OfferFits(db, o) && StoredBy(db, o).id.Some?
  {
    var stored := StoredBy(db, o);
    Bound(Exec(db, stored.log), stored.id.value, o.h.row.url, o.title)
  }

  /** The visit sends, the gate lets it, an attempt is delivered - and at that moment another lead holds the reported
      thread, so that the message is recorded and the transition refused. */
  ghost predicate Refused(rules: Rules, db: Db, o: Offer, immediate: bool)
    requires OfferFits(db, o)
  {
    && o.Host? && SendsNow(StoredBy(db, o), immediate)
    && var id, b := StoredBy(db, o).id.value, SendStore(db, o);
    && GateReason(rules, Exec(db, StoredBy(db, o).log), id).None?
    && var t := Attempts(rules, b, id, o.job);
    t.result.Sent? && !ThreadFree(b.leads, id, Some(t.result.thread))
  }

  lemma FirstIsCold(log: seq<Write>)
    requires ColdAt(log, 0) && forall i :: 1 <= i < |log| ==> !log[i].Say?
    ensures ColdWrites(log) == 1
  {
    var rest := log[1..];
    assert log == [log[0]] + rest && [log[0]][..0] == [] && ColdAt([log[0]], 0);
    ColdWritesConcat([log[0]], rest);
    QuietMeansNoCold(rest);
  }

  lemma TailColds(now: Db, id: LeadId, job: Job, result: Result)
    requires id in now.leads
    ensures ColdWrites(Tail(now, id, Phase1Cold, job, result).log) == if result.Sent? then 1 else 0
  {
    var log := Tail(now, id, Phase1Cold, job, result).log;
    if result.Sent? {
      FirstIsCold(log);
    } else {
      forall i: nat
        ensures !ColdAt(log, i)
      {
        if ColdAt(log, i) {
          TailColdPlace(now, id, Phase1Cold, job, result, i);
        }
      }
      QuietMeansNoCold(log);
    }
  }

  /** What a send puts on record: the template once if an attempt was delivered, and nothing else. */
  lemma CoreColds(rules: Rules, db: Db, id: LeadId, job: Job)
    requires id in db.leads && JobNames(db, job)
    ensures ColdWrites(SendCore(rules, db, id, Phase1Cold, job).log)
      == if Attempts(rules, db, id, job).result.Sent? then 1 else 0
  {
    var t, now := Attempts(rules, db, id, job), AfterAttempts(rules, db, id, job);
    AttemptsAreQuiet(rules, db, id, job);
    QuietMeansNoCold(t.log);
    TailColds(now, id, job, t.result);
    ColdWritesConcat(t.log, Tail(now, id, Phase1Cold, job, t.result).log);
  }

  /** The delivery is counted unless the reported thread belongs to another lead. */
  lemma CoreCounts(rules: Rules, db: Db, id: LeadId, job: Job)
    requires id in db.leads && JobNames(db, job)
    ensures var t := Attempts(rules, db, id, job);
      SendCore(rules, db, id, Phase1Cold, job).outcome.WasSent?
      <==> t.result.Sent? && ThreadFree(db.leads, id, Some(t.result.thread))
  {
    var t := Attempts(rules, db, id, job);
    CoreOutcome(AfterAttempts(rules, db, id, job), id, job, t.result);
  }

  lemma CoreOutcome(now: Db, id: LeadId, job: Job, result: Result)
    requires id in now.leads
    ensures Tail(now, id, Phase1Cold, job, result).outcome.WasSent?
       <==> result.Sent? && ThreadFree(now.leads, id, Some(result.thread))
  {
  }

  lemma HarvestSendColds(rules: Rules, db: Db, id: LeadId, url: string, title: Option<string>, job: Job)
    requires id in db.leads && JobNames(db, job)
    ensures var send, b := HarvestSend(rules, db, id, url, title, job), Bound(db, id, url, title);
      var t := Attempts(rules, b, id, job);
      var refused := GateReason(rules, db, id).None? && t.result.Sent? &&
          !ThreadFree(b.leads, id, Some(t.result.thread));
      ColdWrites(send.log) == (if send.outcome.WasSent? then 1 else 0) + if refused then 1 else 0
  {
    if GateReason(rules, db, id).None? {
      var bind, b := BindLog(db.leads[id], id, url, title), Bound(db, id, url, title);
      CoreColds(rules, b, id, job);
      CoreCounts(rules, b, id, job);
      ColdWritesConcat(bind, SendCore(rules, b, id, Phase1Cold, job).log);
      QuietMeansNoCold(bind);
    }
  }

  /** One visit records one cold message if its send is counted or its delivery is refused, and none otherwise. */
  lemma VisitColds(rules: Rules, db: Db, o: Offer, immediate: bool)
    requires OfferFits(db, o)
    ensures ColdWrites(Visit(rules, db, o, immediate).log)
         == (if Visit(rules, db, o, immediate).outcome.WasSent? then 1
             else 0) + if Refused(rules, db, o, immediate) then 1 else 0
  {
    if o.Host? {
      var stored := StoredBy(db, o);
      QuietMeansNoCold(stored.log);
      if SendsNow(stored, immediate) {
        var now, id := Exec(db, stored.log), stored.id.value;
        HarvestSendColds(rules, now, id, o.h.row.url, o.title, o.job);
        ColdWritesConcat(stored.log, HarvestSend(rules, now, id, o.h.row.url, o.title, o.job).log);
      }
    }
  }
}
