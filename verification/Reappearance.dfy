/** A host that turns up under ever new ids, as the harvest finds it, and then under its first one again. */
module Reappearance {
  import opened Records
  import opened Texts
  import opened Identity
  import opened Gate
  import opened Merge
  import opened Recanonical
  import opened Writes
  import opened Sending
  import opened Harvesting
  import opened Pipeline
  import opened Trails
  import opened Witness

  // ---------- runs of harvests ----------

  /** The harvest of an eligible host that is stored as `h`; the duplicate query answers `found`. */
  function HarvestOf(h: Holder, found: Option<LeadId>): Scheduled {
    Scheduled(HarvestActivity(Harvested(h.row, None), h.id, None, found), 2)
  }

  /** Each harvest finds the lead of the one before. */
  function Harvests(chain: seq<Holder>): seq<Scheduled> {
    if |chain| < 2 then []
    else
      var n := |chain| - 1;
      Harvests(chain[..n]) + [HarvestOf(chain[n], Some(chain[n - 1].id))]
  }

  /** Every activity of the run fits the store it starts on. */
  ghost predicate AllFit(rules: Rules, db: Db, run: seq<Scheduled>) {
    forall i: nat :: i < |run| ==> FitsAt(rules, db, run, i)
  }

  ghost predicate FitsAt(rules: Rules, db: Db, run: seq<Scheduled>, i: nat)
    requires i < |run|
  {
    Admissible(Exec(db, RunLog(rules, db, run[..i])), run[i].activity)
  }

  lemma FitPrefix(rules: Rules, db: Db, run: seq<Scheduled>, s: Scheduled)
    ensures AllFit(rules, db, run + [s]) <==>
      AllFit(rules, db, run) && Admissible(Exec(db, RunLog(rules, db, run)), s.activity)
  {
    var longer := run + [s];
    assert longer[..|run|] == run && longer[|run|] == s;
    forall i: nat | i < |run|
      ensures FitsAt(rules, db, longer, i) <==> FitsAt(rules, db, run, i)
    {
      assert longer[..i] == run[..i] && longer[i] == run[i];
    }
    assert FitsAt(rules, db, longer, |run|) <==> Admissible(Exec(db, RunLog(rules, db, run)), s.activity);
  }

  lemma RunLogSnoc(rules: Rules, db: Db, run: seq<Scheduled>, s: Scheduled)
    ensures var log := RunLog(rules, db, run);
      RunLog(rules, db, run + [s]) == log + Done(rules, Exec(db, log), s)
  {
    assert (run + [s])[..|run|] == run;
  }

  /** The harvest of a host known under another id writes a new lead and a merge. */
  lemma HarvestTakesOver(rules: Rules, m: Db, was: Holder, h: Holder)
    requires Holds(m, was) && IsNumericHostId(h.row.host) && Admissible(m, HarvestOf(h, Some(was.id)).activity)
    ensures Done(rules, m, HarvestOf(h, Some(was.id))) == TakeOver(h, was.id)
    ensures LegalLog(m, TakeOver(h, was.id))
  {
    HarvestMergeCommitsIff(m, Harvested(h.row, None), h.id, was.id);
    UpsertRuns(m, Harvested(h.row, None), h.id, None, Some(was.id));
  }

  lemma HoldsAfter(m: Db, a: Db, was: Holder, h: Holder)
    requires Holds(m, was) && Run(m, TakeOver(h, was.id)) == Some(a)
    ensures Holds(a, h)
  {
    TakeOverEffects(m, a, h, was.id);
    HoldsOneMore(m, a, was, h);
  }

  /** So a run of such harvests writes the succession of the chain, and every write of it is legal. */
  lemma {:induction false} HarvestsSucceed(rules: Rules, db: Db, chain: seq<Holder>)
    requires IsChain(chain) && Begins(db, chain) && AllFit(rules, db, Harvests(chain))
    ensures RunLog(rules, db, Harvests(chain)) == Succession(chain)
    ensures var m := Exec(db, Succession(chain));
      Run(db, Succession(chain)) == Some(m) && Holds(m, chain[|chain| - 1])
  {
    if |chain| > 1 {
      var n := |chain| - 1;
      var front, s := chain[..n], HarvestOf(chain[n], Some(chain[n - 1].id));
      FitPrefix(rules, db, Harvests(front), s);
      HarvestsSucceed(rules, db, front);
      RunLogSnoc(rules, db, Harvests(front), s);
      var before := Exec(db, Succession(front));
      HarvestTakesOver(rules, before, chain[n - 1], chain[n]);
      OneMoreTakeOver(db, chain, n, before);
    }
  }

  lemma OneMoreTakeOver(db: Db, chain: seq<Holder>, n: nat, before: Db)
    requires n == |chain| - 1 >= 1 && Run(db, Succession(chain[..n])) == Some(before)
    requires Holds(before, chain[n - 1]) && LegalLog(before, TakeOver(chain[n], chain[n - 1].id))
    ensures var m := Exec(db, Succession(chain)); Run(db, Succession(chain)) == Some(m) && Holds(m, chain[n])
  {
    var takeOver := TakeOver(chain[n], chain[n - 1].id);
    RunConcat(db, Succession(chain[..n]), takeOver);
    RunIsExec(db, Succession(chain));
    HoldsAfter(before, Run(before, takeOver).value, chain[n - 1], chain[n]);
  }

  /** A harvest that finds its host nowhere creates a lead. */
  lemma HarvestCreates(rules: Rules, m: Db, h: Holder)
    requires Admissible(m, HarvestOf(h, None).activity)
    ensures Done(rules, m, HarvestOf(h, None)) == [Create(h.id, h.row)] && Legal(m, Create(h.id, h.row))
    ensures Exec(m, [Create(h.id, h.row)]) == Created(m, h.id, h.row)
  {
    FreshRowFits(m, h.id, h.row);
    RunOne(m, Create(h.id, h.row));
    RunIsExec(m, [Create(h.id, h.row)]);
  }

  /** The duplicate query that finds nobody has looked at every listing. */
  lemma NobodyNamesTheListing(m: Db, h: Holder)
    requires Admissible(m, HarvestOf(h, None).activity) && IsNumericHostId(h.row.host)
    ensures forall k :: k in m.leads ==> !UrlNamesListing(m.leads[k].url, CollectListingIds(h.row))
  {
    NumericIdsAreNotSynthetic(h.row.host);
    forall k | k in m.leads
      ensures !UrlNamesListing(m.leads[k].url, CollectListingIds(h.row))
    {
      assert !LooksDuplicate(m, k, h.row.host, h.row.url);
    }
  }

  /** Contact elsewhere in the store is with hosts of numeric ids. */
  ghost predicate ContactsAreNumeric(db: Db) {
    forall k :: k in db.leads && Contacted(db, k) ==> IsNumericHostId(db.leads[k].host)
  }

  lemma StillNumeric(db: Db, m: Db, chain: seq<Holder>, apart: set<HostId>, back: Holder)
    requires IsChain(chain) && ContactsAreNumeric(db) && ChainLeft(db, m, chain, |chain| - 1, apart)
    requires Admissible(m, HarvestOf(back, None).activity) && back.row.host == chain[0].row.host
    ensures ContactIsNumeric(m, CollectListingIds(back.row))
  {
    NobodyNamesTheListing(m, back);
  }

  /** Exactly how far the memory of the gate reaches. A contacted host is harvested under one new id after the other,
      each harvest taking the lead of the one before for a duplicate; then it is harvested under its first id, with a
      listing not seen before. The gate refuses the lead created for it iff there were at most two harvests in
      between. */
  lemma MemoryIsTwoMerges(rules: Rules, db: Db, chain: seq<Holder>, back: Holder)
    requires IsChain(chain) && |chain| >= 2 && Begins(db, chain) && ContactsAreNumeric(db)
    requires forall a :: a in db.aliases ==> RowIsApart(db.aliases, a, HostsOf(chain), Seeds(back.row))
    requires back.row.host == chain[0].row.host && rules.icp(back.row)
    requires AllFit(rules, db, Harvests(chain) + [HarvestOf(back, None)])
    ensures var m := Exec(db, RunLog(rules, db, Harvests(chain) + [HarvestOf(back, None)]));
      back.id in m.leads && (GateReason(rules, m, back.id).Some? <==> |chain| - 1 <= 2)
  {
    var m := Exec(db, Succession(chain));
    ReturnFits(rules, db, chain, back);
    SuccessionIsRemembered(rules, db, chain, m, back);
  }

  lemma ReturnFits(rules: Rules, db: Db, chain: seq<Holder>, back: Holder)
    requires IsChain(chain) && Begins(db, chain) && AllFit(rules, db, Harvests(chain) + [HarvestOf(back, None)])
    ensures var m := Exec(db, Succession(chain));
      && Run(db, Succession(chain)) == Some(m) && Admissible(m, HarvestOf(back, None).activity)
      && Exec(db, RunLog(rules, db, Harvests(chain) + [HarvestOf(back, None)])) == Created(m, back.id, back.row)
  {
    var log, m := Succession(chain), Exec(db, Succession(chain));
    FitPrefix(rules, db, Harvests(chain), HarvestOf(back, None));
    HarvestsSucceed(rules, db, chain);
    RunLogSnoc(rules, db, Harvests(chain), HarvestOf(back, None));
    HarvestCreates(rules, m, back);
    ExecConcat(db, log, [Create(back.id, back.row)]);
  }

  lemma SuccessionIsRemembered(rules: Rules, db: Db, chain: seq<Holder>, m: Db, back: Holder)
    requires IsChain(chain) && |chain| >= 2 && Begins(db, chain) && ContactsAreNumeric(db)
    requires forall a :: a in db.aliases ==> RowIsApart(db.aliases, a, HostsOf(chain), Seeds(back.row))
    requires back.row.host == chain[0].row.host && rules.icp(back.row)
    requires Run(db, Succession(chain)) == Some(m) && Admissible(m, HarvestOf(back, None).activity)
    ensures GateReason(rules, Created(m, back.id, back.row), back.id).Some? <==> |chain| - 1 <= 2
  {
    var n := |chain| - 1;
    assert chain[..n + 1] == chain;
    SuccessionLeavesTrail(db, chain, n, Seeds(back.row), m);
    HarvestCreates(rules, m, back);
    StillNumeric(db, m, chain, Seeds(back.row), back);
    SuccessionMemory(rules, db, chain, m, back.id, back.row);
  }

  // ---------- a concrete run ----------

  /** New leads with the listing of the first one, under host ids nobody has. */
  ghost predicate ShareListing(db: Db, chain: seq<Holder>, listing: string) {
    && |chain| >= 1 && db.aliases == map[]
    && ParseListingId(chain[0].row.url) == Some(listing) && Contains(chain[0].row.url, "/rooms/" + listing)
    && forall i :: 1 <= i < |chain| ==>
         && chain[i].row.url == chain[0].row.url && IsFresh(chain[i].row)
         && chain[i].id !in db.leads && HostFree(db.leads, chain[i].row.host)
  }

  lemma NextFits(db: Db, m: Db, chain: seq<Holder>, n: nat, listing: string)
    requires IsChain(chain) && ShareListing(db, chain, listing) && n + 1 < |chain| && ChainLeft(db, m, chain, n, {})
    ensures Admissible(m, HarvestOf(chain[n + 1], Some(chain[n].id)).activity)
  {
    var h := chain[n + 1];
    assert chain[n].row.url == chain[0].row.url && h.row.url == chain[0].row.url;
    assert m.leads[chain[n].id].url == h.row.url;
    assert HostFree(m.leads, h.row.host);
    assert LooksDuplicate(m, chain[n].id, h.row.host, h.row.url);
  }

  lemma ChainPrefix(db: Db, chain: seq<Holder>, listing: string)
    requires IsChain(chain) && Begins(db, chain) && ShareListing(db, chain, listing) && |chain| > 1
    ensures var front := chain[..|chain| - 1]; IsChain(front) && Begins(db, front) && ShareListing(db, front, listing)
  {
  }

  /** One listing under ever new host ids: every harvest finds the lead of the one before. */
  lemma {:induction false} SameListingFits(rules: Rules, db: Db, chain: seq<Holder>, listing: string)
    requires IsChain(chain) && Begins(db, chain) && ShareListing(db, chain, listing)
    ensures AllFit(rules, db, Harvests(chain))
  {
    if |chain| > 1 {
      var n := |chain| - 1;
      ChainPrefix(db, chain, listing);
      SameListingFits(rules, db, chain[..n], listing);
      NextHarvestFits(rules, db, chain, n - 1, chain[..n], listing);
      FitPrefix(rules, db, Harvests(chain[..n]), HarvestOf(chain[n], Some(chain[n - 1].id)));
    }
  }

  lemma NextHarvestFits(rules: Rules, db: Db, chain: seq<Holder>, n: nat, front: seq<Holder>, listing: string)
    requires IsChain(chain) && Begins(db, chain) && ShareListing(db, chain, listing) && n + 1 < |chain|
    requires front == chain[..n + 1] && IsChain(front) && Begins(db, front) && AllFit(rules, db, Harvests(front))
    ensures var m := Exec(db, RunLog(rules, db, Harvests(front)));
      Admissible(m, HarvestOf(chain[n + 1], Some(chain[n].id)).activity)
  {
    HarvestsSucceed(rules, db, front);
    SuccessionAfter(db, chain, n, front);
    NextFits(db, Exec(db, Succession(front)), chain, n, listing);
  }

  lemma SuccessionAfter(db: Db, chain: seq<Holder>, n: nat, front: seq<Holder>)
    requires IsChain(chain) && Begins(db, chain) && db.aliases == map[] && n < |chain| && front == chain[..n + 1]
    requires Run(db, Succession(front)) == Some(Exec(db, Succession(front)))
    ensures ChainLeft(db, Exec(db, Succession(front)), chain, n, {})
  {
    SuccessionLeavesTrail(db, chain, n, {}, Exec(db, Succession(front)));
  }

  /** The run `c` goes on with `b` from the store that `a` leaves. */
  ghost predicate GoesOn(rules: Rules, db: Db, a: seq<Scheduled>, b: seq<Scheduled>, c: seq<Scheduled>) {
    RunLog(rules, db, c) == RunLog(rules, db, a) + RunLog(rules, Exec(db, RunLog(rules, db, a)), b)
  }

  lemma GoesOnStep(rules: Rules, db: Db, a: seq<Scheduled>, front: seq<Scheduled>, c: seq<Scheduled>, s: Scheduled)
    requires GoesOn(rules, db, a, front, c)
    ensures GoesOn(rules, db, a, front + [s], c + [s])
  {
    var mid := Exec(db, RunLog(rules, db, a));
    RunLogSnoc(rules, db, c, s);
    RunLogSnoc(rules, mid, front, s);
    ExecConcat(db, RunLog(rules, db, a), RunLog(rules, mid, front));
    Associates(RunLog(rules, db, a), RunLog(rules, mid, front), Done(rules, Exec(mid, RunLog(rules, mid, front)), s));
  }

  lemma Associates(a: seq<Write>, b: seq<Write>, c: seq<Write>)
    ensures (a + b) + c == a + (b + c)
  {
  }

  lemma GoesOnNot(rules: Rules, db: Db, a: seq<Scheduled>)
    ensures GoesOn(rules, db, a, [], a)
  {
    var log := RunLog(rules, db, a);
    assert log + [] == log;
  }

  lemma {:induction false} RunLogConcat(rules: Rules, db: Db, a: seq<Scheduled>, b: seq<Scheduled>, c: seq<Scheduled>)
    requires c == a + b
    ensures GoesOn(rules, db, a, b, c)
    decreases |b|
  {
    if b == [] {
      assert c == a;
      GoesOnNot(rules, db, a);
    } else {
      var k := |b| - 1;
      var front := a + b[..k];
      assert c == front + [b[k]] && b == b[..k] + [b[k]];
      RunLogConcat(rules, db, a, b[..k], front);
      GoesOnStep(rules, db, a, b[..k], front, b[k]);
    }
  }

  const NOTHING := Db(map[], map[], map[], [])

  function Host(base: string, id: LeadId, host: HostId, listing: char): Holder {
    Holder(id, FreshLead(base, host, listing))
  }

  function FourHosts(base: string): seq<Holder> {
    [Host(base, 0, "1", '1'), Host(base, 1, "2", '1'), Host(base, 2, "3", '1'), Host(base, 3, "4", '1')]
  }

  function DeliveredJob(ctx: Ctx, thread: ThreadUrl): Job { Job(ctx, Delivers(thread), Breaks(false), "") }

  /** A send that is cut short once its message is on record. */
  function ShortSend(id: LeadId, ctx: Ctx, thread: ThreadUrl): Scheduled {
    Scheduled(SendActivity(id, DeliveredJob(ctx, thread)), 1)
  }

  lemma DeliveredAtOnce(n: Db, id: LeadId, ctx: Ctx, thread: ThreadUrl)
    requires id in n.leads
    ensures var job := DeliveredJob(ctx, thread);
      && JobNames(n, job) && JobFits(n, id, true, job)
      && Attempts(EAGER_RULES, n, id, job) == Tried([], Sent(thread)) && AfterAttempts(EAGER_RULES, n, id, job) == n
  {
  }

  lemma DeliverStarts(n: Db, id: LeadId, ctx: Ctx, thread: ThreadUrl)
    requires id in n.leads && ThreadFree(n.leads, id, Some(thread))
    ensures var log := Deliver(n, id, Phase1Cold, thread, ctx).log;
      |log| > 1 && log[..1] == [Say(TemplateMessage(id, Phase1Cold, ctx))]
  {
  }

  lemma SentTail(n: Db, id: LeadId, ctx: Ctx, thread: ThreadUrl)
    requires id in n.leads
    ensures Tail(n, id, Phase1Cold, DeliveredJob(ctx, thread), Sent(thread)) == Deliver(n, id, Phase1Cold, thread, ctx)
  {
  }

  lemma DeliveredPlan(n: Db, id: LeadId, ctx: Ctx, thread: ThreadUrl)
    requires id in n.leads && n.leads[id].status.LeadDiscovered? && GateReason(EAGER_RULES, n, id).None?
    ensures JobNames(n, DeliveredJob(ctx, thread))
    ensures SendLead(EAGER_RULES, n, id, DeliveredJob(ctx, thread)) == Deliver(n, id, Phase1Cold, thread, ctx)
  {
    DeliveredAtOnce(n, id, ctx, thread);
    CoreAfter(EAGER_RULES, n, id, DeliveredJob(ctx, thread), Tried([], Sent(thread)), n);
    SentTail(n, id, ctx, thread);
  }

  lemma ShortSendRecords(n: Db, id: LeadId, ctx: Ctx, thread: ThreadUrl)
    requires id in n.leads && n.leads[id].status.LeadDiscovered? && ThreadFree(n.leads, id, Some(thread))
    requires GateReason(EAGER_RULES, n, id).None?
    ensures Admissible(n, ShortSend(id, ctx, thread).activity)
    ensures Done(EAGER_RULES, n, ShortSend(id, ctx, thread)) == [Say(TemplateMessage(id, Phase1Cold, ctx))]
  {
    DeliveredAtOnce(n, id, ctx, thread);
    DeliverStarts(n, id, ctx, thread);
    DeliveredPlan(n, id, ctx, thread);
  }

  function FirstHost(base: string): Holder { Host(base, 0, "1", '1') }

  /** The first two steps: a host is found and written to. */
  function Beginning(base: string, ctx: Ctx, thread: ThreadUrl): seq<Scheduled> {
    [HarvestOf(FirstHost(base), None), ShortSend(0, ctx, thread)]
  }

  function OneColdMessage(base: string, ctx: Ctx): Db {
    Db(map[0 := FirstHost(base).row], map[], map[], [TemplateMessage(0, Phase1Cold, ctx)])
  }

  lemma FirstHarvest(base: string)
    ensures var h, n := FirstHost(base), Created(NOTHING, 0, FirstHost(base).row);
      && AllFit(EAGER_RULES, NOTHING, [HarvestOf(h, None)]) && Consistent(n)
      && RunLog(EAGER_RULES, NOTHING, [HarvestOf(h, None)]) == [Create(0, h.row)]
      && Exec(NOTHING, [Create(0, h.row)]) == n && GateReason(EAGER_RULES, n, 0).None?
  {
    var h := FirstHost(base);
    HarvestCreates(EAGER_RULES, NOTHING, h);
    FitPrefix(EAGER_RULES, NOTHING, [], HarvestOf(h, None));
    RunLogSnoc(EAGER_RULES, NOTHING, [], HarvestOf(h, None));
    assert [] + [HarvestOf(h, None)] == [HarvestOf(h, None)];
    CreationKeepsIndices(NOTHING, 0, h.row);
    StrangersDoNotBlock(EAGER_RULES, Created(NOTHING, 0, h.row), 0);
  }

  lemma FirstMessage(base: string, ctx: Ctx, thread: ThreadUrl)
    ensures var log := [Create(0, FirstHost(base).row), Say(TemplateMessage(0, Phase1Cold, ctx))];
      && AllFit(EAGER_RULES, NOTHING, Beginning(base, ctx, thread))
      && RunLog(EAGER_RULES, NOTHING, Beginning(base, ctx, thread)) == log
      && Exec(NOTHING, log) == OneColdMessage(base, ctx)
  {
    FirstHarvest(base);
    ShortSendRecords(Created(NOTHING, 0, FirstHost(base).row), 0, ctx, thread);
    TwoSteps(HarvestOf(FirstHost(base), None), ShortSend(0, ctx, thread), Create(0, FirstHost(base).row),
             Say(TemplateMessage(0, Phase1Cold, ctx)));
  }

  /** Two activities of one write each. */
  lemma TwoSteps(s: Scheduled, t: Scheduled, v: Write, w: Write)
    requires AllFit(EAGER_RULES, NOTHING, [s]) && RunLog(EAGER_RULES, NOTHING, [s]) == [v]
    requires Admissible(Exec(NOTHING, [v]), t.activity) && Done(EAGER_RULES, Exec(NOTHING, [v]), t) == [w]
    requires Possible(Exec(NOTHING, [v]), w)
    ensures AllFit(EAGER_RULES, NOTHING, [s, t]) && RunLog(EAGER_RULES, NOTHING, [s, t]) == [v, w]
    ensures Exec(NOTHING, [v, w]) == Apply(Exec(NOTHING, [v]), w)
  {
    assert [s, t] == [s] + [t] && [v, w] == [v] + [w] && [v, w][..1] == [v];
    FitPrefix(EAGER_RULES, NOTHING, [s], t);
    RunLogSnoc(EAGER_RULES, NOTHING, [s], t);
  }

  lemma ExecGoesOn(rules: Rules, db: Db, a: seq<Scheduled>, b: seq<Scheduled>, c: seq<Scheduled>)
    requires c == a + b
    ensures Exec(db, RunLog(rules, db, c))
      == Exec(Exec(db, RunLog(rules, db, a)), RunLog(rules, Exec(db, RunLog(rules, db, a)), b))
  {
    RunLogConcat(rules, db, a, b, c);
    ExecConcat(db, RunLog(rules, db, a), RunLog(rules, Exec(db, RunLog(rules, db, a)), b));
  }

  lemma FitsBefore(rules: Rules, db: Db, a: seq<Scheduled>, c: seq<Scheduled>, i: nat)
    requires i < |a| <= |c| && c[..|a|] == a && FitsAt(rules, db, a, i)
    ensures FitsAt(rules, db, c, i)
  {
    assert c[..i] == a[..i] && c[i] == a[i];
  }

  lemma FitsBehind(rules: Rules, db: Db, a: seq<Scheduled>, b: seq<Scheduled>, c: seq<Scheduled>, k: nat, i: nat)
    requires c == a + b && k < |b| && i == |a| + k && FitsAt(rules, Exec(db, RunLog(rules, db, a)), b, k)
    ensures FitsAt(rules, db, c, i)
  {
    assert c[i] == b[k];
    ExecGoesOn(rules, db, a, b[..k], c[..i]);
  }

  lemma FitConcat(rules: Rules, db: Db, a: seq<Scheduled>, b: seq<Scheduled>, c: seq<Scheduled>)
    requires c == a + b && AllFit(rules, db, a) && AllFit(rules, Exec(db, RunLog(rules, db, a)), b)
    ensures AllFit(rules, db, c)
  {
    forall i: nat | i < |c|
      ensures FitsAt(rules, db, c, i)
    {
      if i < |a| {
        FitsBefore(rules, db, a, c, i);
      } else {
        FitsBehind(rules, db, a, b, c, i - |a|, i);
      }
    }
  }

  /** The rest: three more host ids with the same listing, then the first one with another. */
  function Comeback(base: string): Holder { Host(base, 4, "1", '5') }

  lemma FourHostsAreChain(base: string, ctx: Ctx)
    requires IsBase(base)
    ensures IsChain(FourHosts(base)) && Begins(OneColdMessage(base, ctx), FourHosts(base))
    ensures ContactsAreNumeric(OneColdMessage(base, ctx))
  {
    var db := OneColdMessage(base, ctx);
    assert db.messages[0].direction.Outbound?;
  }

  lemma RoomUrlContains(base: string, digit: char)
    ensures Contains(RoomUrl(base, digit), "/rooms/" + [digit])
  {
    assert RoomUrl(base, digit)[|base|..] == "/rooms/" + [digit];
  }

  lemma FourHostsShareListing(base: string, ctx: Ctx)
    requires IsBase(base)
    ensures ShareListing(OneColdMessage(base, ctx), FourHosts(base), "1")
  {
    RoomUrlNamesItsListing(base, '1');
    RoomUrlContains(base, '1');
  }

  /** Of a store with one lead, harvested under one id after the other, the last lead is left. */
  lemma OnlyTheLastIsLeft(db: Db, m: Db, chain: seq<Holder>, n: nat)
    requires IsChain(chain) && n >= 1 && ChainLeft(db, m, chain, n, {}) && db.leads.Keys == {chain[0].id}
    ensures m.leads.Keys == {chain[n].id} && chain[n].row.host !in m.aliases
  {
    var hs := HostsOf(chain);
    assert hs[n] !in hs[..n];
    forall a | a in m.aliases
      ensures a != hs[n]
    {
    }
  }

  lemma ComebackFits(base: string, m: Db)
    requires IsBase(base) && m.leads.Keys == {3} && m.leads[3].host == "4" && m.leads[3].url == RoomUrl(base, '1')
    requires "4" !in m.aliases
    ensures Admissible(m, HarvestOf(Comeback(base), None).activity)
  {
    RoomUrlNamesItsListing(base, '5');
    RoomUrlsDiffer(base, '1', '5');
    NumericIdsAreNotSynthetic("4");
    assert !LooksDuplicate(m, 3, "1", RoomUrl(base, '5'));
  }

  lemma FourHostsEnd(base: string, ctx: Ctx)
    requires IsBase(base)
    ensures var db, m := OneColdMessage(base, ctx), Exec(OneColdMessage(base, ctx), Succession(FourHosts(base)));
      && AllFit(EAGER_RULES, db, Harvests(FourHosts(base)))
      && RunLog(EAGER_RULES, db, Harvests(FourHosts(base))) == Succession(FourHosts(base))
      && Run(db, Succession(FourHosts(base))) == Some(m) && Holds(m, Host(base, 3, "4", '1'))
  {
    var db, chain := OneColdMessage(base, ctx), FourHosts(base);
    FourHostsAreChain(base, ctx);
    FourHostsShareListing(base, ctx);
    SameListingFits(EAGER_RULES, db, chain, "1");
    HarvestsSucceed(EAGER_RULES, db, chain);
  }

  lemma OneLeadIsLeft(base: string, ctx: Ctx, m: Db)
    requires IsBase(base) && Run(OneColdMessage(base, ctx), Succession(FourHosts(base))) == Some(m)
    requires Holds(m, Host(base, 3, "4", '1'))
    ensures m.leads.Keys == {3} && m.leads[3].thread.None? && Admissible(m, HarvestOf(Comeback(base), None).activity)
  {
    var db, chain := OneColdMessage(base, ctx), FourHosts(base);
    FourHostsAreChain(base, ctx);
    RunIsExec(db, Succession(chain));
    assert chain[..4] == chain && chain[3] == Host(base, 3, "4", '1');
    SuccessionAfter(db, chain, 3, chain);
    OnlyTheLastIsLeft(db, m, chain, 3);
    ComebackFits(base, m);
  }

  lemma FourHostsFit(base: string, ctx: Ctx)
    requires IsBase(base)
    ensures var db, m := OneColdMessage(base, ctx), Exec(OneColdMessage(base, ctx), Succession(FourHosts(base)));
      && AllFit(EAGER_RULES, db, Rest(base)) && m.leads.Keys == {3} && m.leads[3].thread.None?
  {
    FourHostsEnd(base, ctx);
    OneLeadIsLeft(base, ctx, Exec(OneColdMessage(base, ctx), Succession(FourHosts(base))));
    FitPrefix(EAGER_RULES, OneColdMessage(base, ctx), Harvests(FourHosts(base)), HarvestOf(Comeback(base), None));
  }

  function Rest(base: string): seq<Scheduled> {
    Harvests(FourHosts(base)) + [HarvestOf(Comeback(base), None)]
  }

  /** The store they leave: the gate is open for the host that has had its cold message. */
  lemma ComebackPasses(base: string, ctx: Ctx, thread: ThreadUrl)
    requires IsBase(base)
    ensures var db := OneColdMessage(base, ctx); var m := Exec(db, RunLog(EAGER_RULES, db, Rest(base)));
      && 4 in m.leads && m.leads[4] == Comeback(base).row && GateReason(EAGER_RULES, m, 4).None?
      && ThreadFree(m.leads, 4, Some(thread))
  {
    var db, chain := OneColdMessage(base, ctx), FourHosts(base);
    FourHostsFit(base, ctx);
    FourHostsAreChain(base, ctx);
    ReturnFits(EAGER_RULES, db, chain, Comeback(base));
    MemoryIsTwoMerges(EAGER_RULES, db, chain, Comeback(base));
  }

  lemma RestWrites(base: string, ctx: Ctx)
    requires IsBase(base)
    ensures RunLog(EAGER_RULES, OneColdMessage(base, ctx), Rest(base))
      == Succession(FourHosts(base)) + [Create(4, Comeback(base).row)]
  {
    var db, chain := OneColdMessage(base, ctx), FourHosts(base);
    FourHostsFit(base, ctx);
    FourHostsAreChain(base, ctx);
    FitPrefix(EAGER_RULES, db, Harvests(chain), HarvestOf(Comeback(base), None));
    HarvestsSucceed(EAGER_RULES, db, chain);
    RunLogSnoc(EAGER_RULES, db, Harvests(chain), HarvestOf(Comeback(base), None));
    HarvestCreates(EAGER_RULES, Exec(db, Succession(chain)), Comeback(base));
  }

  /** A host is found and written to, its listing is harvested under three more host ids, then the host itself with
      another listing, and the lead created for it is written to. */
  function WholeRun(base: string, ctx: Ctx, thread: ThreadUrl): seq<Scheduled> {
    Beginning(base, ctx, thread) + Rest(base) + [ShortSend(4, ctx, thread)]
  }

  function WholeLog(base: string, ctx: Ctx): seq<Write> {
    [Create(0, FirstHost(base).row), Say(TemplateMessage(0, Phase1Cold, ctx))]
    + (Succession(FourHosts(base)) + [Create(4, Comeback(base).row)])
    + [Say(TemplateMessage(4, Phase1Cold, ctx))]
  }

  lemma WholeRunIs(base: string, ctx: Ctx, thread: ThreadUrl)
    requires IsBase(base)
    ensures AllFit(EAGER_RULES, NOTHING, WholeRun(base, ctx, thread))
    ensures RunLog(EAGER_RULES, NOTHING, WholeRun(base, ctx, thread)) == WholeLog(base, ctx)
  {
    var a, b := Beginning(base, ctx, thread), Rest(base);
    FirstMessage(base, ctx, thread);
    FourHostsFit(base, ctx);
    RestWrites(base, ctx);
    ComebackPasses(base, ctx, thread);
    FitConcat(EAGER_RULES, NOTHING, a, b, a + b);
    RunLogConcat(EAGER_RULES, NOTHING, a, b, a + b);
    ExecGoesOn(EAGER_RULES, NOTHING, a, b, a + b);
    ShortSendRecords(Exec(NOTHING, RunLog(EAGER_RULES, NOTHING, a + b)), 4, ctx, thread);
    FitPrefix(EAGER_RULES, NOTHING, a + b, ShortSend(4, ctx, thread));
    RunLogSnoc(EAGER_RULES, NOTHING, a + b, ShortSend(4, ctx, thread));
  }

  /** From an empty store: after the third merge the gate has forgotten the host, and its second cold message goes on
      record, under another lead with the same host id. */
  lemma ThirdMergeForgets(ctx: Ctx, thread: ThreadUrl)
    ensures AllFit(EAGER_RULES, NOTHING, WholeRun(AIRBNB, ctx, thread))
    ensures var log := RunLog(EAGER_RULES, NOTHING, WholeRun(AIRBNB, ctx, thread)); var n := |log| - 1;
      && n >= 3 && ColdAt(log, 1) && ColdAt(log, n) && log[0].Create? && log[n - 1].Create?
      && log[1].msg.lead == log[0].id && log[n].msg.lead == log[n - 1].id && log[0].row.host == log[n - 1].row.host
  {
    AirbnbIsBase();
    WholeRunIs(AIRBNB, ctx, thread);
    WholeLogEnds(AIRBNB, ctx);
  }

  lemma WholeLogEnds(base: string, ctx: Ctx)
    ensures var log := WholeLog(base, ctx); var n := |log| - 1;
      && n >= 3 && ColdAt(log, 1) && ColdAt(log, n) && log[0].Create? && log[n - 1].Create?
      && log[1].msg.lead == log[0].id && log[n].msg.lead == log[n - 1].id && log[0].row.host == log[n - 1].row.host
  {
  }
}
