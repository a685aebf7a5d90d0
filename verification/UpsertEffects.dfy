/** What storing a harvested host leaves in the tables, case by case and column by column. */
module UpsertEffects {
  import opened Records
  import opened Texts
  import opened Captures
  import opened Identity
  import opened Gate
  import opened Merge
  import opened Recanonical
  import opened Writes
  import opened Harvesting

  /** The columns a later harvest never touches. */
  predicate SameHistory(l: Lead, r: Lead) {
    && r.host == l.host && r.thread == l.thread && r.status == l.status && r.lastContacted == l.lastContacted
    && r.nextFollowUp == l.nextFollowUp && r.createdAt == l.createdAt
  }

  /** Only this row has changed, and nothing but leads. */
  ghost predicate OnlyRow(before: Db, id: LeadId, row: Lead, after: Db) {
    after == before.(leads := before.leads[id := row])
  }

  // ---------- hosts that do not fit ----------

  /** The verdict is remembered with what was scraped; the market is kept when none was scraped. */
  predicate Skipped(l: Lead, h: Harvested, r: Lead) {
    && SameHistory(l, r) && r.url == l.url && r.listingName == l.listingName && r.company == l.company
    && r.icpSkip == h.verdict && r.total == h.row.total && r.superhost == h.row.superhost
    && (h.row.market.Some? ==> r.market == h.row.market) && (h.row.market.None? ==> r.market == l.market)
  }

  /** A host that does not fit is stored with the verdict, which keeps it out of the cold queue; one that has moved on
      in the pipeline is left alone. */
  lemma UnfitHost(db: Db, h: Harvested, id: LeadId, existing: Option<LeadId>, duplicate: Option<LeadId>,
                  cfg: QueueConfig)
    requires Consistent(db) && Storable(db, h, id, existing, duplicate) && h.verdict != None
    ensures var stored := Upsert(db, h, id, existing, duplicate);
      stored.action == WasSkipped && stored.id == None && LegalLog(db, stored.log)
    ensures var n := Replay(db, Upsert(db, h, id, existing, duplicate).log);
      match existing
      case None => OnlyRow(db, id, h.row.(icpSkip := h.verdict), n) && !ColdRow(cfg, n, id)
      case Some(k) =>
        if db.leads[k].status == LeadDiscovered
        then k in n.leads && OnlyRow(db, k, n.leads[k], n) && Skipped(db.leads[k], h, n.leads[k]) && !ColdRow(cfg, n, k)
        else n == db
  {
    UpsertRuns(db, h, id, existing, duplicate);
    OneWrite(db, Upsert(db, h, id, existing, duplicate).log);
  }

  lemma OneWrite(db: Db, log: seq<Write>)
    requires LegalLog(db, log) && |log| <= 1
    ensures log == [] ==> Replay(db, log) == db
    ensures log != [] ==> Possible(db, log[0]) && Replay(db, log) == Apply(db, log[0])
  {
    if log != [] {
      RunOne(db, log[0]);
      assert log == [log[0]];
    }
  }

  // ---------- hosts that are new ----------

  /** An eligible host that is not stored yet is created as scraped, unless its id is numeric and a lead looks like a
      duplicate. */
  lemma NewHost(db: Db, h: Harvested, id: LeadId, duplicate: Option<LeadId>)
    requires Consistent(db) && Storable(db, h, id, None, duplicate) && h.verdict == None
    requires duplicate == None || !IsNumber(h.row.host)
    ensures var stored := Upsert(db, h, id, None, duplicate);
      stored.action == WasCreated && stored.id == Some(id) && LegalLog(db, stored.log)
    ensures OnlyRow(db, id, h.row, Replay(db, Upsert(db, h, id, None, duplicate).log))
  {
    UpsertRuns(db, h, id, None, duplicate);
    OneWrite(db, Upsert(db, h, id, None, duplicate).log);
  }

  /** A new host with a numeric id and a duplicate without thread: the duplicate is gone, the new row has taken over
      what it lacked, and the duplicate's host id points at it. */
  lemma DuplicateIsAbsorbed(db: Db, h: Harvested, id: LeadId, d: LeadId)
    requires Consistent(db) && Storable(db, h, id, None, Some(d)) && h.verdict == None && IsNumber(h.row.host)
    requires db.leads[d].thread == None
    ensures var stored := Upsert(db, h, id, None, Some(d));
      stored.action == WasUpdated && stored.id == Some(id) && LegalLog(db, stored.log)
    ensures var n := Replay(db, Upsert(db, h, id, None, Some(d)).log);
      && d !in n.leads && id in n.leads && Inherits(h.row, db.leads[d], n.leads[id])
      && (forall k :: k in db.leads && k != d ==> k in n.leads && n.leads[k] == db.leads[k])
      && db.leads[d].host in n.aliases && n.aliases[db.leads[d].host] == Alias(h.row.host, Some(id))
  {
    HarvestMergeCommitsIff(db, h, id, d);
    UpsertRuns(db, h, id, None, Some(d));
    var created := Created(db, id, h.row);
    assert [Create(id, h.row), Absorb(id, d)] == [Create(id, h.row)] + [Absorb(id, d)];
    RunOne(db, Create(id, h.row));
    RunSnoc(db, [Create(id, h.row)], Absorb(id, d));
    SurvivorInherits(created, id, d);
    assert d in db.leads && db.leads[d].host != h.row.host;
  }

  /** With a thread the duplicate stays, and so does the new row beside it. */
  lemma DuplicateStays(db: Db, h: Harvested, id: LeadId, d: LeadId)
    requires Consistent(db) && Storable(db, h, id, None, Some(d)) && h.verdict == None && IsNumber(h.row.host)
    requires db.leads[d].thread != None
    ensures var stored := Upsert(db, h, id, None, Some(d));
      stored.action == MergeThrew && stored.id == None && LegalLog(db, stored.log)
    ensures OnlyRow(db, id, h.row, Replay(db, Upsert(db, h, id, None, Some(d)).log))
  {
    HarvestMergeCommitsIff(db, h, id, d);
    UpsertRuns(db, h, id, None, Some(d));
    OneWrite(db, Upsert(db, h, id, None, Some(d)).log);
  }

  /** Which lead looks like a duplicate: one under the host id or under the listing's own id, one whose URL shows the
      listing, one whose id an alias row maps to the host. */
  lemma DuplicateMeans(db: Db, k: LeadId, host: HostId, url: string)
    requires k in db.leads
    ensures var l, listing := db.leads[k], DigitsAfter(url, "/rooms/");
      LooksDuplicate(db, k, host, url)
      <==> || l.host == host
           || (listing != None && l.host == "manual:listing-" + listing.value)
           || (listing != None && Contains(l.url, "/rooms/" + listing.value))
           || (l.host in db.aliases && db.aliases[l.host].canonical == host)
  {
  }

  // ---------- hosts that are stored ----------

  /** A row still in discovery after another harvest of its host: the listing as scraped now, the larger property count,
      superhost once and for all, and company and market kept when none was scraped; an earlier verdict is lifted. */
  predicate Refreshed(l: Lead, h: Harvested, r: Lead) {
    && SameHistory(l, r) && r.url == h.row.url && r.listingName == h.row.listingName && r.icpSkip == None
    && r.total >= l.total && r.total >= h.row.total && (r.total == l.total || r.total == h.row.total)
    && (r.superhost <==> l.superhost || h.row.superhost)
    && (h.row.company.Some? ==> r.company == h.row.company) && (h.row.company.None? ==> r.company == l.company)
    && (h.row.market.Some? ==> r.market == h.row.market) && (h.row.market.None? ==> r.market == l.market)
  }

  /** A row past discovery after another harvest: counts only grow, and a market is filled in where none was known. */
  predicate Grown(l: Lead, h: Harvested, r: Lead) {
    && SameHistory(l, r) && r.url == l.url && r.listingName == l.listingName && r.company == l.company
    && r.icpSkip == l.icpSkip
    && r.total >= l.total && r.total >= h.row.total && (r.total == l.total || r.total == h.row.total)
    && (r.superhost <==> l.superhost || h.row.superhost)
    && (l.market.Some? ==> r.market == l.market) && (l.market.None? ==> r.market == h.row.market)
  }

  /** An eligible host that is stored already: in discovery its row is refreshed; past discovery it grows iff there are
      more properties or a superhost is new, and is left alone otherwise. */
  lemma KnownHost(db: Db, h: Harvested, id: LeadId, k: LeadId, duplicate: Option<LeadId>)
    requires Consistent(db) && Storable(db, h, id, Some(k), duplicate) && h.verdict == None
    ensures var stored := Upsert(db, h, id, Some(k), duplicate);
      LegalLog(db, stored.log) && stored.id == Some(k) && (stored.action == WasUpdated || stored.action == WasUnchanged)
    ensures var stored, l := Upsert(db, h, id, Some(k), duplicate), db.leads[k];
      var n := Replay(db, stored.log);
      && k in n.leads && OnlyRow(db, k, n.leads[k], n)
      && (l.status == LeadDiscovered ==> stored.action == WasUpdated && Refreshed(l, h, n.leads[k]))
      && (l.status != LeadDiscovered ==>
        && (stored.action == WasUpdated <==> h.row.total > l.total || (h.row.superhost && !l.superhost))
        && (stored.action == WasUpdated ==> Grown(l, h, n.leads[k]))
        && (stored.action == WasUnchanged ==> n.leads[k] == l))
  {
    UpsertRuns(db, h, id, Some(k), duplicate);
    OneWrite(db, Upsert(db, h, id, Some(k), duplicate).log);
    assert db.leads[k := db.leads[k]] == db.leads;
  }
}
