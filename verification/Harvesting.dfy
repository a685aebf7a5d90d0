/** Storing a harvested host: the branches of the lead upsert, and the merge it may attempt. */
module Harvesting {
  import opened Records
  import opened Texts
  import opened Identity
  import opened Gate
  import opened Merge
  import opened Recanonical
  import opened Writes

  /** The host as scraped, as a fresh lead row, and the verdict of the eligibility rules on it. */
  datatype Harvested = Harvested(row: Lead, verdict: Option<SkipReason>)

  datatype Action = WasCreated | WasUpdated | WasUnchanged | WasSkipped | MergeThrew

  datatype Stored = Stored(log: seq<Write>, action: Action, id: Option<LeadId>)

  /** `k` answers the lookup by host id. */
  ghost predicate FindsHost(db: Db, host: HostId, found: Option<LeadId>) {
    match found
    case Some(k) => k in db.leads && db.leads[k].host == host
    case None => HostFree(db.leads, host)
  }

  /** The filter of the duplicate query for a host id and a listing URL. */
  predicate LooksDuplicate(db: Db, k: LeadId, host: HostId, url: string)
    requires k in db.leads
  {
    var l := db.leads[k];
    var listing := ParseListingId(url);
    || l.host == host
    || (listing.Some? && (l.host == ListingHostId(listing.value) || Contains(l.url, "/rooms/" + listing.value)))
    || (l.host in db.aliases && (l.host == host || db.aliases[l.host].canonical == host))
  }

  ghost predicate FindsDuplicate(db: Db, host: HostId, url: string, found: Option<LeadId>) {
    match found
    case Some(k) => k in db.leads && LooksDuplicate(db, k, host, url)
    case None => forall k :: k in db.leads ==> !LooksDuplicate(db, k, host, url)
  }

  function SkipRow(l: Lead, h: Harvested): Lead {
    l.(icpSkip := h.verdict, total := h.row.total, superhost := h.row.superhost, market := Or(h.row.market, l.market))
  }

  function RefreshedRow(l: Lead, h: Harvested): Lead {
    l.(url := h.row.url, listingName := h.row.listingName, total := Max(l.total, h.row.total),
       company := Or(h.row.company, l.company), superhost := h.row.superhost || l.superhost,
       market := Or(h.row.market, l.market), icpSkip := None)
  }

  predicate Grew(l: Lead, h: Harvested) {
    h.row.total > l.total || (h.row.superhost && !l.superhost)
  }

  function GrownRow(l: Lead, h: Harvested): Lead {
    l.(total := Max(l.total, h.row.total), superhost := l.superhost || h.row.superhost,
        market := Or(l.market, h.row.market))
  }

  /** Remembering an ineligible host without touching a lead that has moved on. */
  function SkipLog(db: Db, h: Harvested, id: LeadId, existing: Option<LeadId>): seq<Write>
    requires existing.Some? ==> existing.value in db.leads
  {
    match existing
    case None => [Create(id, h.row.(icpSkip := h.verdict))]
    case Some(k) => if db.leads[k].status.LeadDiscovered? then [Update(k, SkipRow(db.leads[k], h))] else []
  }

  /** `upsertDiscoveredLead`; `id` is the new row's id, should one be created. A merge that the indices refuse throws,
      and the lead created for it stays. */
  function Upsert(db: Db, h: Harvested, id: LeadId, existing: Option<LeadId>, duplicate: Option<LeadId>): Stored
    requires existing.Some? ==> existing.value in db.leads
    requires duplicate.Some? ==> duplicate.value in db.leads
    requires existing.None? ==> id !in db.leads
  {
    if h.verdict.Some? then Stored(SkipLog(db, h, id, existing), WasSkipped, None)
    else
      match existing
      case None =>
        if IsNumericHostId(h.row.host) && duplicate.Some? then
          var n := Created(db, id, h.row);
          if MergeCommits(n, id, duplicate.value)
          then Stored([Create(id, h.row), Absorb(id, duplicate.value)], WasUpdated, Some(id))
          else Stored([Create(id, h.row)], MergeThrew, None)
        else Stored([Create(id, h.row)], WasCreated, Some(id))
      case Some(k) =>
        var l := db.leads[k];
        if l.status.LeadDiscovered? then Stored([Update(k, RefreshedRow(l, h))], WasUpdated, Some(k))
        else if Grew(l, h) then Stored([Update(k, GrownRow(l, h))], WasUpdated, Some(k))
        else Stored([], WasUnchanged, Some(k))
  }

  /** What a harvest may be asked to store. */
  ghost predicate Storable(db: Db, h: Harvested, id: LeadId, existing: Option<LeadId>, duplicate: Option<LeadId>) {
    && IsFresh(h.row) && id !in db.leads
    && FindsHost(db, h.row.host, existing) && FindsDuplicate(db, h.row.host, h.row.url, duplicate)
  }

  lemma FreshRowFits(db: Db, id: LeadId, row: Lead)
    requires id !in db.leads && HostFree(db.leads, row.host) && IsFresh(row)
    ensures Legal(db, Create(id, row))
  {
  }

  lemma UpsertRuns(db: Db, h: Harvested, id: LeadId, existing: Option<LeadId>, duplicate: Option<LeadId>)
    requires Consistent(db) && Storable(db, h, id, existing, duplicate)
    ensures LegalLog(db, Upsert(db, h, id, existing, duplicate).log)
  {
    if existing.None? {
      NewHostRuns(db, h, id, duplicate);
    } else {
      KnownHostRuns(db, h, id, existing.value, duplicate);
    }
  }

  lemma NewHostRuns(db: Db, h: Harvested, id: LeadId, duplicate: Option<LeadId>)
    requires Consistent(db) && Storable(db, h, id, None, duplicate)
    ensures LegalLog(db, Upsert(db, h, id, None, duplicate).log)
  {
    var log := Upsert(db, h, id, None, duplicate).log;
    var row := if h.verdict.Some? then h.row.(icpSkip := h.verdict) else h.row;
    FreshRowFits(db, id, row);
    RunOne(db, Create(id, row));
    if |log| == 2 {
      RunSnoc(db, [Create(id, row)], log[1]);
      assert log == [Create(id, row)] + [log[1]];
    }
  }

  lemma KnownHostRuns(db: Db, h: Harvested, id: LeadId, k: LeadId, duplicate: Option<LeadId>)
    requires Consistent(db) && Storable(db, h, id, Some(k), duplicate)
    ensures LegalLog(db, Upsert(db, h, id, Some(k), duplicate).log)
  {
    var log := Upsert(db, h, id, Some(k), duplicate).log;
    if |log| == 1 {
      UpdateOfContactedFieldsOnly(db, k, log[0].row);
      RunOne(db, log[0]);
    }
  }

  lemma UpdateOfContactedFieldsOnly(db: Db, k: LeadId, row: Lead)
    requires Consistent(db) && k in db.leads
    requires row.host == db.leads[k].host && row.thread == db.leads[k].thread && row.status == db.leads[k].status
    ensures Legal(db, Update(k, row))
  {
  }

  /** A harvest merge commits iff the duplicate holds no thread: the fresh row never has one of its own, so a
      thread-bearing duplicate is never absorbed. */
  lemma HarvestMergeCommitsIff(db: Db, h: Harvested, id: LeadId, d: LeadId)
    requires Consistent(db) && Storable(db, h, id, None, Some(d)) && h.verdict.None? && IsNumericHostId(h.row.host)
    ensures Upsert(db, h, id, None, Some(d)).action == (if db.leads[d].thread.None? then WasUpdated else MergeThrew)
  {
    var n := Created(db, id, h.row);
    if d in n.contacts {
      forall k | k in n.contacts && k != d
        ensures n.contacts[k].host != h.row.host
      {
        assert db.contacts[k].host == db.leads[k].host;
      }
    }
  }

  /** The duplicate that was found lies in the identity cluster of the new lead. */
  lemma DuplicateIsInCluster(db: Db, id: LeadId, l: Lead, d: LeadId)
    requires d in db.leads && d != id && LooksDuplicate(db, d, l.host, l.url)
    ensures d in ClusterOf(db, id, l).leadIds
  {
    var listing := ParseListingId(l.url);
    var dl := db.leads[d];
    HopFollows(db.aliases, Seeds(l), l.host);
    HopFollows(db.aliases, Hop(db.aliases, Seeds(l)), l.host);
    if listing.Some? {
      assert listing.value in CollectListingIds(l);
      assert ListingHostId(listing.value) in Seeds(l);
      HopFollows(db.aliases, Seeds(l), ListingHostId(listing.value));
      HopFollows(db.aliases, Hop(db.aliases, Seeds(l)), ListingHostId(listing.value));
      assert listing.value in KnownListings(db.aliases, l);
    }
    if dl.host in db.aliases && db.aliases[dl.host].canonical == l.host {
      assert dl.host in RowsTouching(db.aliases, Seeds(l));
      HopFollows(db.aliases, Hop(db.aliases, Seeds(l)), dl.host);
    }
    assert Related(d, dl, AliasReach(db.aliases, l), PointedLeads(db.aliases, id, l), KnownListings(db.aliases, l),
        KnownThreads(db.aliases, l));
  }

  /** Although an aborted harvest merge leaves a fresh lead behind, a contacted duplicate still blocks it at the
      gate. */
  lemma AbortedMergeIsStillRefused(rules: Rules, db: Db, h: Harvested, id: LeadId, d: LeadId)
    requires Consistent(db) && Storable(db, h, id, None, Some(d)) && h.verdict.None? && IsNumericHostId(h.row.host)
    requires Upsert(db, h, id, None, Some(d)).action == MergeThrew
    ensures LegalLog(db, Upsert(db, h, id, None, Some(d)).log)
    ensures GateReason(rules, Replay(db, Upsert(db, h, id, None, Some(d)).log), id).Some?
  {
    HarvestMergeCommitsIff(db, h, id, d);
    UpsertRuns(db, h, id, None, Some(d));
    RunOne(db, Create(id, h.row));
    var n := Created(db, id, h.row);
    CreationKeepsIndices(db, id, h.row);
    assert LooksDuplicate(n, d, h.row.host, h.row.url);
    DuplicateIsInCluster(n, id, h.row, d);
    assert Contacted(n, d);
    GateMeaning(rules, n, id);
  }
}
