/** A harvest that records more cold messages than twice its cap allows, because none of their deliveries is counted. */
module CapMissed {
  import opened Records
  import opened Texts
  import opened Identity
  import opened Gate
  import opened Recanonical
  import opened Writes
  import opened Sync
  import opened Sending
  import opened Harvesting
  import opened Witness
  import opened HarvestVisits
  import opened HarvestRun

  /** The delivery is reported under a thread that lead 0 holds. */
  function MissJob(base: string, ctx: Ctx): Job { Job(ctx, Delivers(OldThread(base)), Breaks(false), "") }

  /** A new eligible host. */
  function MissOffer(base: string, id: LeadId, host: HostId, digit: char, ctx: Ctx): Offer {
    Host(Harvested(FreshLead(base, host, digit), None), id, None, None, None, MissJob(base, ctx))
  }

  /** Lead 0 holds the thread, no lead names the new listing or host, and there are no aliases. */
  ghost predicate Apart(base: string, db: Db, id: LeadId, host: HostId, digit: char) {
    && Consistent(db) && db.aliases == map[] && id !in db.leads && HostFree(db.leads, host)
    && IsNumericHostId(host) && IsDigit(digit)
    && 0 in db.leads && db.leads[0].thread == Some(OldThread(base))
    && forall k :: k in db.leads ==>
         IsNumericHostId(db.leads[k].host) && !Contains(db.leads[k].url, "/rooms/" + [digit])
  }

  lemma NobodyLooksAlike(base: string, db: Db, id: LeadId, host: HostId, digit: char)
    requires IsBase(base) && Apart(base, db, id, host, digit)
    ensures FindsDuplicate(db, host, RoomUrl(base, digit), None)
  {
    RoomUrlNamesItsListing(base, digit);
    forall k | k in db.leads
      ensures !LooksDuplicate(db, k, host, RoomUrl(base, digit))
    {
      NumericIdsAreNotSynthetic(db.leads[k].host);
    }
  }

  lemma GateIsOpen(base: string, db: Db, id: LeadId, host: HostId, digit: char)
    requires IsBase(base) && Apart(base, db, id, host, digit)
    ensures GateReason(EAGER_RULES, Created(db, id, FreshLead(base, host, digit)), id).None?
    ensures Consistent(Created(db, id, FreshLead(base, host, digit)))
  {
    var l := FreshLead(base, host, digit);
    var n := Created(db, id, l);
    CreationKeepsIndices(db, id, l);
    ListingsOfFresh(base, host, digit);
    StrangersDoNotBlock(EAGER_RULES, n, id);
  }

  /** The store after such a visit: the new lead, and its cold message on record. */
  function Missed(base: string, db: Db, id: LeadId, host: HostId, digit: char, ctx: Ctx): Db {
    var n := Created(db, id, FreshLead(base, host, digit));
    n.(messages := n.messages + [TemplateMessage(id, Phase1Cold, ctx)])
  }

  lemma MissedDelivery(base: string, n: Db, id: LeadId, ctx: Ctx)
    requires id in n.leads && id != 0 && 0 in n.leads && n.leads[0].thread == Some(OldThread(base))
    ensures JobNames(n, MissJob(base, ctx))
    ensures Attempts(EAGER_RULES, n, id, MissJob(base, ctx)) == Tried([], Sent(OldThread(base)))
    ensures AfterAttempts(EAGER_RULES, n, id, MissJob(base, ctx)) == n
    ensures !ThreadFree(n.leads, id, Some(OldThread(base)))
    ensures Deliver(n, id, Phase1Cold, OldThread(base), ctx) == Plan([Say(TemplateMessage(id, Phase1Cold, ctx))], Threw)
  {
  }

  lemma MissedSend(base: string, n: Db, id: LeadId, ctx: Ctx)
    requires id in n.leads && id != 0 && 0 in n.leads && n.leads[0].thread == Some(OldThread(base))
    requires GateReason(EAGER_RULES, n, id).None?
    ensures JobNames(n, MissJob(base, ctx)) && Bound(n, id, n.leads[id].url, None) == n
    ensures HarvestSend(EAGER_RULES, n, id, n.leads[id].url, None, MissJob(base, ctx))
      == Plan([Say(TemplateMessage(id, Phase1Cold, ctx))], Threw)
  {
    MissedDelivery(base, n, id, ctx);
    CoreAfter(EAGER_RULES, n, id, MissJob(base, ctx), Tried([], Sent(OldThread(base))), n);
    HarvestSendParts(EAGER_RULES, n, id, n.leads[id].url, None, MissJob(base, ctx));
    assert [] + [Say(TemplateMessage(id, Phase1Cold, ctx))] == [Say(TemplateMessage(id, Phase1Cold, ctx))];
  }

  lemma MissedOfferFits(base: string, db: Db, id: LeadId, host: HostId, digit: char, ctx: Ctx)
    requires IsBase(base) && Apart(base, db, id, host, digit)
    ensures var o, row := MissOffer(base, id, host, digit, ctx), FreshLead(base, host, digit);
      && OfferFits(db, o) && StoredBy(db, o) == Stored([Create(id, row)], WasCreated, Some(id))
      && Exec(db, [Create(id, row)]) == Created(db, id, row)
  {
    NobodyLooksAlike(base, db, id, host, digit);
    var row := FreshLead(base, host, digit);
    FreshRowFits(db, id, row);
    RunOne(db, Create(id, row));
    RunIsExec(db, [Create(id, row)]);
  }

  /** One such visit: the message is recorded, the visit counts for nothing. */
  lemma MissedVisit(base: string, db: Db, id: LeadId, host: HostId, digit: char, ctx: Ctx) returns (v: Visited)
    requires IsBase(base) && Apart(base, db, id, host, digit)
    ensures v == Visited(db, MissOffer(base, id, host, digit, ctx), Threw, Missed(base, db, id, host, digit, ctx))
    ensures VisitedWell(EAGER_RULES, true, v) && Consistent(v.after)
  {
    var o, row := MissOffer(base, id, host, digit, ctx), FreshLead(base, host, digit);
    v := Visited(db, o, Threw, Missed(base, db, id, host, digit, ctx));
    MissedOfferFits(base, db, id, host, digit, ctx);
    GateIsOpen(base, db, id, host, digit);
    var n := Created(db, id, row);
    MissedSend(base, n, id, ctx);
    var say := Say(TemplateMessage(id, Phase1Cold, ctx));
    assert Visit(EAGER_RULES, db, o, true) == Plan([Create(id, row)] + [say], Threw);
    VisitRuns(EAGER_RULES, db, o, true);
    RunOne(db, Create(id, row));
    RunSnoc(db, [Create(id, row)], say);
    RunKeepsIndices(db, [Create(id, row)] + [say]);
  }

  /** The thread that every delivery is reported under belongs to this lead. */
  function MissDb(base: string): Db { Db(map[0 := OldLead(base, "1", '1')], map[], map[], []) }

  lemma MissStart(base: string, digit: char, host: HostId)
    requires IsBase(base) && IsDigit(digit) && digit != '1' && IsNumericHostId(host) && host != "1"
    ensures Apart(base, MissDb(base), 1, host, digit)
  {
    RoomUrlsDiffer(base, '1', digit);
  }

  lemma MissMore(base: string, db: Db, id: LeadId, host: HostId, digit: char, ctx: Ctx, id': LeadId, host': HostId,
                 digit': char)
    requires IsBase(base) && Apart(base, db, id, host, digit) && Apart(base, db, id', host', digit')
    requires id != id' && host != host' && digit != digit' && Consistent(Missed(base, db, id, host, digit, ctx))
    ensures Apart(base, Missed(base, db, id, host, digit, ctx), id', host', digit')
  {
    RoomUrlsDiffer(base, digit, digit');
  }

  /** With a cap of one send, a harvest of two new hosts goes through both: nothing is counted, nothing stops it, and
      two cold messages are on record where twice the cap less one would be one. */
  lemma CapIsMissed(ctx: Ctx) returns (trace: seq<Visited>, end: Db)
    ensures Happened(EAGER_RULES, true, MissDb(AIRBNB), trace, end)
    ensures |trace| == 2 && CountSent(trace) == 0 && forall n :: 0 <= n <= 2 ==> !Stops(trace[..n], 1)
    ensures CountCold(end.messages) - CountCold(MissDb(AIRBNB).messages) == 2
  {
    AirbnbIsBase();
    trace, end := TwoMissed(AIRBNB, ctx);
  }

  lemma TwoMissed(base: string, ctx: Ctx) returns (trace: seq<Visited>, end: Db)
    requires IsBase(base)
    ensures Happened(EAGER_RULES, true, MissDb(base), trace, end)
    ensures |trace| == 2 && CountSent(trace) == 0 && forall n :: 0 <= n <= 2 ==> !Stops(trace[..n], 1)
    ensures CountCold(end.messages) - CountCold(MissDb(base).messages) == 2
  {
    var a, b := TwoVisits(base, ctx);
    trace, end := [a, b], b.after;
    NothingStops(trace);
    TwoRecorded(ctx, end.messages);
  }

  lemma FirstMissed(base: string, ctx: Ctx) returns (a: Visited)
    requires IsBase(base)
    ensures VisitedWell(EAGER_RULES, true, a) && a.before == MissDb(base) && a.outcome.Threw?
    ensures Apart(base, a.after, 2, "3", '3') && a.after.messages == [TemplateMessage(1, Phase1Cold, ctx)]
  {
    MissStart(base, '2', "2");
    MissStart(base, '3', "3");
    a := MissedVisit(base, MissDb(base), 1, "2", '2', ctx);
    MissMore(base, MissDb(base), 1, "2", '2', ctx, 2, "3", '3');
  }

  lemma TwoVisits(base: string, ctx: Ctx) returns (a: Visited, b: Visited)
    requires IsBase(base)
    ensures VisitedWell(EAGER_RULES, true, a) && VisitedWell(EAGER_RULES, true, b)
    ensures a.before == MissDb(base) && a.after == b.before && a.outcome.Threw? && b.outcome.Threw?
    ensures b.after.messages == [TemplateMessage(1, Phase1Cold, ctx), TemplateMessage(2, Phase1Cold, ctx)]
  {
    a := FirstMissed(base, ctx);
    b := MissedVisit(base, a.after, 2, "3", '3', ctx);
  }

  lemma NothingStops(trace: seq<Visited>)
    requires forall i :: 0 <= i < |trace| ==> trace[i].outcome.Threw?
    ensures CountSent(trace) == 0 && forall n :: 0 <= n <= |trace| ==> !Stops(trace[..n], 1)
  {
    if trace != [] {
      var k := |trace| - 1;
      NothingStops(trace[..k]);
      forall n | 0 <= n <= |trace|
        ensures !Stops(trace[..n], 1)
      {
        if n <= k {
          assert trace[..n] == trace[..k][..n];
        } else {
          assert trace[..n] == trace;
        }
      }
    }
  }

  lemma TwoRecorded(ctx: Ctx, ms: seq<Message>)
    requires ms == [TemplateMessage(1, Phase1Cold, ctx), TemplateMessage(2, Phase1Cold, ctx)]
    ensures CountCold(ms) == 2
  {
    var front := ms[..1];
    assert front[..0] == [] && CountCold(front[..0]) == 0;
    assert IsCold(front[0]) && IsCold(ms[1]);
    assert CountCold(front) == 1;
  }
}
