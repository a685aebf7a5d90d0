/** Who is in the identity cluster of a lead, told by the columns of the rows and the places of the alias table. */
module Members {
  import opened Records
  import opened Texts
  import opened Captures
  import opened Identity
  import opened Gate

  /** The row names the listing: in its URL, or as the listing it is registered under. */
  ghost predicate HasListing(l: Lead, x: string) {
    DigitsAfter(l.url, "/rooms/") == Some(x) || (IsNumber(x) && l.host == "manual:listing-" + x)
  }

  /** The row names the thread: in its thread URL, or as the thread it is registered under, in the new form or the
      old one. */
  ghost predicate HasThread(l: Lead, t: string) {
    || (l.thread.Some? && DigitsAfter(l.thread.value, "/guest/messages/") == Some(t))
    || (IsNumber(t) && (l.host == "manual:thread-" + t || l.host == "manual:" + t))
  }

  lemma ListingIdsMean(l: Lead, x: string)
    ensures x in CollectListingIds(l) <==> HasListing(l, x)
  {
    DigitsOfMeans(l.host, "manual:listing-", x);
  }

  lemma ThreadIdsMean(l: Lead, t: string)
    ensures t in ThreadIdsOfHost(l.host) <==> IsNumber(t) && (l.host == "manual:thread-" + t || l.host == "manual:" + t)
    ensures t in CollectThreadIds(l) <==> HasThread(l, t)
  {
    DigitsOfMeans(l.host, "manual:thread-", t);
    DigitsOfMeans(l.host, "manual:", t);
  }

  /** A host id under which a listing or a thread of the row may be registered. */
  ghost predicate RegisteredUnder(l: Lead, h: HostId) {
    || (exists x :: HasListing(l, x) && h == "manual:listing-" + x)
    || (exists t :: HasThread(l, t) && (h == "manual:thread-" + t || h == "manual:" + t))
  }

  lemma SyntheticHostsMean(l: Lead, h: HostId)
    ensures h in SyntheticHosts(CollectListingIds(l), CollectThreadIds(l)) <==> RegisteredUnder(l, h)
  {
    forall x
      ensures x in CollectListingIds(l) <==> HasListing(l, x)
      ensures x in CollectThreadIds(l) <==> HasThread(l, x)
    {
      ListingIdsMean(l, x);
      ThreadIdsMean(l, x);
    }
  }

  /** The search of the alias table starts from the lead's own host id and those of its listings and threads. */
  lemma SeedsMean(l: Lead, h: HostId)
    ensures h in Seeds(l) <==> h == l.host || RegisteredUnder(l, h)
  {
    SyntheticHostsMean(l, h);
  }

  /** At most so many undirected alias links away from the lead's own ids. */
  ghost predicate Within(al: map<HostId, Alias>, l: Lead, h: HostId, links: nat) {
    exists p :: WalkFrom(al, Seeds(l), h, links, p)
  }

  /** An alias row with an end at most one link away. */
  ghost predicate IsRead(al: map<HostId, Alias>, l: Lead, a: HostId) {
    a in al && (Within(al, l, a, 1) || Within(al, l, al[a].canonical, 1))
  }

  lemma OneLinkAway(al: map<HostId, Alias>, l: Lead, h: HostId)
    ensures h in Hop(al, Seeds(l)) <==> Within(al, l, h, 1)
  {
    var s := Seeds(l);
    HopIsOneLink(al, s, h);
    if h in s {
      assert WalkFrom(al, s, h, 1, [h]);
    } else if h in Hop(al, s) {
      var x :| x in s && Linked(al, x, h);
      assert WalkFrom(al, s, h, 1, [x, h]);
    }
    forall p | WalkFrom(al, s, h, 1, p)
      ensures h in Hop(al, s)
    {
      assert |p| == 2 ==> Linked(al, p[0], p[1]);
    }
  }

  lemma RowsReadMean(al: map<HostId, Alias>, l: Lead, a: HostId)
    ensures a in RowsRead(al, l) <==> IsRead(al, l, a)
  {
    OneLinkAway(al, l, a);
    if a in al {
      OneLinkAway(al, l, al[a].canonical);
    }
  }

  /** A listing the lead names itself or an alias row read names. */
  ghost predicate KnowsListing(al: map<HostId, Alias>, l: Lead, x: string) {
    HasListing(l, x) || (IsNumber(x) && IsRead(al, l, "manual:listing-" + x))
  }

  ghost predicate KnowsThread(al: map<HostId, Alias>, l: Lead, t: string) {
    HasThread(l, t) || (IsNumber(t) && (IsRead(al, l, "manual:thread-" + t) || IsRead(al, l, "manual:" + t)))
  }

  lemma KnownListingsMean(al: map<HostId, Alias>, l: Lead, x: string)
    ensures x in KnownListings(al, l) <==> KnowsListing(al, l, x)
  {
    ListingIdsMean(l, x);
    RowsReadMean(al, l, "manual:listing-" + x);
    forall a
      ensures DigitsOf(a, "manual:listing-") == Some(x) <==> IsNumber(x) && a == "manual:listing-" + x
    {
      DigitsOfMeans(a, "manual:listing-", x);
    }
  }

  lemma ThreadsOfHostsMean(hosts: set<HostId>, t: string)
    ensures t in ThreadsOfHosts(hosts) <==> IsNumber(t) && ("manual:thread-" + t in hosts || "manual:" + t in hosts)
  {
    forall a
      ensures t in ThreadIdsOfHost(a) <==> IsNumber(t) && (a == "manual:thread-" + t || a == "manual:" + t)
    {
      DigitsOfMeans(a, "manual:thread-", t);
      DigitsOfMeans(a, "manual:", t);
    }
    if IsNumber(t) {
      assert t in ThreadIdsOfHost("manual:thread-" + t) && t in ThreadIdsOfHost("manual:" + t);
    }
  }

  lemma KnownThreadsMean(al: map<HostId, Alias>, l: Lead, t: string)
    ensures t in KnownThreads(al, l) <==> KnowsThread(al, l, t)
  {
    ThreadIdsMean(l, t);
    RowsReadMean(al, l, "manual:thread-" + t);
    RowsReadMean(al, l, "manual:" + t);
    ThreadsOfHostsMean(RowsRead(al, l), t);
  }

  /** The row belongs to the same host: by its host id, by its listing URL, by its thread, or because it is registered
      under a thread that is known. */
  ghost predicate SameHost(al: map<HostId, Alias>, l: Lead, r: Lead) {
    || Within(al, l, r.host, 2)
    || (exists x :: KnowsListing(al, l, x) && Contains(r.url, "/rooms/" + x))
    || (r.thread.Some? && exists t :: KnowsThread(al, l, t) && Contains(r.thread.value, t))
    || (exists t :: KnowsThread(al, l, t) && (r.host == "manual:thread-" + t || r.host == "manual:" + t))
  }

  lemma UrlMeans(al: map<HostId, Alias>, l: Lead, url: string)
    ensures UrlNamesListing(url, KnownListings(al, l))
       <==> exists x :: KnowsListing(al, l, x) && Contains(url, "/rooms/" + x)
  {
    forall x
      ensures x in KnownListings(al, l) <==> KnowsListing(al, l, x)
    {
      KnownListingsMean(al, l, x);
    }
  }

  lemma ThreadMeans(al: map<HostId, Alias>, l: Lead, r: Lead)
    ensures ThreadNames(r.thread, KnownThreads(al, l))
       <==> r.thread.Some? && exists t :: KnowsThread(al, l, t) && Contains(r.thread.value, t)
    ensures (exists t :: t in KnownThreads(al, l) && (r.host == ThreadHostId(t) || r.host == LegacyThreadHostId(t)))
       <==> exists t :: KnowsThread(al, l, t) && (r.host == "manual:thread-" + t || r.host == "manual:" + t)
  {
    forall t
      ensures t in KnownThreads(al, l) <==> KnowsThread(al, l, t)
    {
      KnownThreadsMean(al, l, t);
    }
  }

  lemma RelatedMeans(db: Db, id: LeadId, l: Lead, k: LeadId)
    requires k in db.leads
    ensures Related(k, db.leads[k], AliasReach(db.aliases, l), PointedLeads(db.aliases, id, l),
      KnownListings(db.aliases, l), KnownThreads(db.aliases, l))
      <==> k in PointedLeads(db.aliases, id, l) || SameHost(db.aliases, l, db.leads[k])
  {
    ReachIsDistanceTwo(db.aliases, l, db.leads[k].host);
    UrlMeans(db.aliases, l, db.leads[k].url);
    ThreadMeans(db.aliases, l, db.leads[k]);
  }

  lemma PointedLeadsMean(al: map<HostId, Alias>, id: LeadId, l: Lead, k: LeadId)
    ensures k in PointedLeads(al, id, l) <==> k == id || exists a :: IsRead(al, l, a) && al[a].lead == Some(k)
  {
    forall a
      ensures a in RowsRead(al, l) <==> IsRead(al, l, a)
    {
      RowsReadMean(al, l, a);
    }
  }

  /** Exactly these leads are in the cluster: the lead itself, those an alias row read names, and every stored lead of
      the same host. */
  lemma LeadsOfTheCluster(db: Db, id: LeadId, l: Lead, k: LeadId)
    ensures k in ClusterOf(db, id, l).leadIds
       <==> || k == id
            || (exists a :: IsRead(db.aliases, l, a) && db.aliases[a].lead == Some(k))
            || (k in db.leads && SameHost(db.aliases, l, db.leads[k]))
  {
    PointedLeadsMean(db.aliases, id, l, k);
    if k in db.leads {
      RelatedMeans(db, id, l, k);
    }
  }

  /** In particular every stored lead is whose thread holds one of the lead's own thread numbers, under whatever
      address, and every one registered under such a number. */
  lemma ThreadLeadsAreInCluster(db: Db, id: LeadId, l: Lead, t: string, k: LeadId)
    requires t in CollectThreadIds(l) && k in db.leads
    requires (db.leads[k].thread.Some? && Contains(db.leads[k].thread.value, t))
      || db.leads[k].host == "manual:thread-" + t || db.leads[k].host == "manual:" + t
    ensures k in ClusterOf(db, id, l).leadIds
  {
    assert t in KnownThreads(db.aliases, l);
    assert Related(k, db.leads[k], AliasReach(db.aliases, l), PointedLeads(db.aliases, id, l),
        KnownListings(db.aliases, l), KnownThreads(db.aliases, l));
  }

  /** A stored lead of the cluster. */
  ghost predicate Member(db: Db, id: LeadId, l: Lead, k: LeadId) {
    k in db.leads && k in ClusterOf(db, id, l).leadIds
  }

  lemma MembersAreRelated(db: Db, id: LeadId, l: Lead, k: LeadId)
    ensures Member(db, id, l, k)
       <==> k in RelatedLeads(db.leads, AliasReach(db.aliases, l), PointedLeads(db.aliases, id, l),
              KnownListings(db.aliases, l), KnownThreads(db.aliases, l))
  {
  }

  /** Exactly these host ids are in the cluster: those at most two links away, and those of its stored leads, with the
      ids their listings and threads may be registered under. */
  lemma HostsOfTheCluster(db: Db, id: LeadId, l: Lead, h: HostId)
    ensures h in ClusterOf(db, id, l).hostIds
       <==> || Within(db.aliases, l, h, 2)
            || exists k :: Member(db, id, l, k) && (h == db.leads[k].host || RegisteredUnder(db.leads[k], h))
  {
    ReachIsDistanceTwo(db.aliases, l, h);
    var related := RelatedLeads(db.leads, AliasReach(db.aliases, l), PointedLeads(db.aliases, id, l),
                                KnownListings(db.aliases, l), KnownThreads(db.aliases, l));
    forall k
      ensures k in related <==> Member(db, id, l, k)
    {
      MembersAreRelated(db, id, l, k);
    }
    SyntheticOfLeads(db.leads, related, h);
  }

  lemma NumbersOfLeads(leads: map<LeadId, Lead>, ids: set<LeadId>, x: string)
    requires ids <= leads.Keys
    ensures x in ListingsOfLeads(leads, ids) <==> exists k :: k in ids && HasListing(leads[k], x)
    ensures x in ThreadsOfLeads(leads, ids) <==> exists k :: k in ids && HasThread(leads[k], x)
  {
    forall k | k in ids
      ensures x in CollectListingIds(leads[k]) <==> HasListing(leads[k], x)
      ensures x in CollectThreadIds(leads[k]) <==> HasThread(leads[k], x)
    {
      ListingIdsMean(leads[k], x);
      ThreadIdsMean(leads[k], x);
    }
  }

  lemma SyntheticOfLeads(leads: map<LeadId, Lead>, ids: set<LeadId>, h: HostId)
    requires ids <= leads.Keys
    ensures h in SyntheticHosts(ListingsOfLeads(leads, ids), ThreadsOfLeads(leads, ids))
       <==> exists k :: k in ids && RegisteredUnder(leads[k], h)
  {
    var listings, threads := ListingsOfLeads(leads, ids), ThreadsOfLeads(leads, ids);
    forall x
      ensures x in listings <==> exists k :: k in ids && HasListing(leads[k], x)
      ensures x in threads <==> exists k :: k in ids && HasThread(leads[k], x)
    {
      NumbersOfLeads(leads, ids, x);
    }
    if x :| x in listings && h == ListingHostId(x) {
      var k :| k in ids && HasListing(leads[k], x);
      assert RegisteredUnder(leads[k], h);
    }
    if t :| t in threads && (h == ThreadHostId(t) || h == LegacyThreadHostId(t)) {
      var k :| k in ids && HasThread(leads[k], t);
      assert RegisteredUnder(leads[k], h);
    }
    forall k | k in ids && RegisteredUnder(leads[k], h)
      ensures h in SyntheticHosts(listings, threads)
    {
      RegisteredIsSynthetic(leads[k], listings, threads, h);
    }
  }

  lemma RegisteredIsSynthetic(l: Lead, listings: set<string>, threads: set<string>, h: HostId)
    requires RegisteredUnder(l, h)
    requires forall x :: HasListing(l, x) ==> x in listings
    requires forall t :: HasThread(l, t) ==> t in threads
    ensures h in SyntheticHosts(listings, threads)
  {
  }

  /** The listings and threads of the cluster: those known from the lead and the alias rows, and those of its stored
      leads. */
  lemma NumbersOfTheCluster(db: Db, id: LeadId, l: Lead, x: string)
    ensures x in ClusterOf(db, id, l).listingIds
       <==> KnowsListing(db.aliases, l, x) || exists k :: Member(db, id, l, k) && HasListing(db.leads[k], x)
    ensures x in ClusterOf(db, id, l).threadIds
       <==> KnowsThread(db.aliases, l, x) || exists k :: Member(db, id, l, k) && HasThread(db.leads[k], x)
  {
    KnownListingsMean(db.aliases, l, x);
    KnownThreadsMean(db.aliases, l, x);
    var related := RelatedLeads(db.leads, AliasReach(db.aliases, l), PointedLeads(db.aliases, id, l),
                                KnownListings(db.aliases, l), KnownThreads(db.aliases, l));
    NumbersOfLeads(db.leads, related, x);
    forall k
      ensures k in related <==> Member(db, id, l, k)
    {
      MembersAreRelated(db, id, l, k);
    }
  }

  // ---------- what follows for the gate ----------

  /** The gate refuses a lead as soon as one stored lead of its cluster has moved on, has a thread or a ledger row or
      was written to, or a ledger row carries one of the cluster's host ids. */
  lemma ContactOfAMemberRefuses(rules: Rules, db: Db, id: LeadId, k: LeadId)
    requires Sound(db) && id in db.leads && Member(db, id, db.leads[id], k)
    requires || db.leads[k].status != LeadDiscovered
             || db.leads[k].thread.Some?
             || k in db.contacts
             || exists i :: 0 <= i < |db.messages| && db.messages[i].lead == k && db.messages[i].direction == Outbound
    ensures GateReason(rules, db, id).Some?
  {
    GateMeaning(rules, db, id);
    assert Contacted(db, k);
  }

  lemma LedgerOfTheClusterRefuses(rules: Rules, db: Db, id: LeadId, k: LeadId)
    requires Sound(db) && id in db.leads && k in db.contacts
    requires db.contacts[k].host in ClusterOf(db, id, db.leads[id]).hostIds
    ensures GateReason(rules, db, id).Some?
  {
    GateMeaning(rules, db, id);
  }

  /** A thread number the lead is known by, in the thread of any other lead, whatever the domain of its URL: the gate
      refuses. */
  lemma SharedThreadRefuses(rules: Rules, db: Db, id: LeadId, t: string, k: LeadId)
    requires Sound(db) && id in db.leads && KnowsThread(db.aliases, db.leads[id], t)
    requires k in db.leads && db.leads[k].thread.Some? && Contains(db.leads[k].thread.value, t)
    ensures k in ClusterOf(db, id, db.leads[id]).leadIds && GateReason(rules, db, id).Some?
  {
    LeadsOfTheCluster(db, id, db.leads[id], k);
    ContactOfAMemberRefuses(rules, db, id, k);
  }

  /** The same for a lead past discovery that is registered under such a thread, in either form. */
  lemma RegisteredThreadRefuses(rules: Rules, db: Db, id: LeadId, t: string, k: LeadId)
    requires Sound(db) && id in db.leads && KnowsThread(db.aliases, db.leads[id], t)
    requires k in db.leads && (db.leads[k].host == "manual:thread-" + t || db.leads[k].host == "manual:" + t)
    requires db.leads[k].status != LeadDiscovered
    ensures k in ClusterOf(db, id, db.leads[id]).leadIds && GateReason(rules, db, id).Some?
  {
    LeadsOfTheCluster(db, id, db.leads[id], k);
    ContactOfAMemberRefuses(rules, db, id, k);
  }

  /** And for a lead past discovery whose URL shows a listing the lead is known by. */
  lemma SharedListingRefuses(rules: Rules, db: Db, id: LeadId, x: string, k: LeadId)
    requires Sound(db) && id in db.leads && KnowsListing(db.aliases, db.leads[id], x)
    requires k in db.leads && Contains(db.leads[k].url, "/rooms/" + x) && db.leads[k].status != LeadDiscovered
    ensures k in ClusterOf(db, id, db.leads[id]).leadIds && GateReason(rules, db, id).Some?
  {
    LeadsOfTheCluster(db, id, db.leads[id], k);
    ContactOfAMemberRefuses(rules, db, id, k);
  }

  // ---------- which reason ----------

  ghost predicate WrittenTo(db: Db, id: LeadId) {
    exists i :: 0 <= i < |db.messages| && db.messages[i].lead == id && db.messages[i].direction == Outbound
  }

  /** The reasons in the order in which they are tried: each is given iff it applies and none before it does. */
  lemma ReasonsInOrder(rules: Rules, db: Db, id: LeadId)
    requires Sound(db) && id in db.leads
    ensures var l, reason := db.leads[id], GateReason(rules, db, id);
      && (reason == Some(IcpIneligible) <==> !rules.icp(l))
      && (reason == Some(StatusNotDiscovered) <==> rules.icp(l) && l.status != LeadDiscovered)
      && (reason == Some(ThreadExists) <==> rules.icp(l) && l.status == LeadDiscovered && l.thread != None)
      && (reason == Some(OutboundMessageExists)
          <==> rules.icp(l) && l.status == LeadDiscovered && l.thread == None && WrittenTo(db, id))
      && (reason == Some(HostContactLedger) <==>
          rules.icp(l) && l.status == LeadDiscovered && l.thread == None && !WrittenTo(db, id) && id in db.contacts)
      && (reason == Some(ClusterAlreadyContacted) <==>
          rules.icp(l) && !Contacted(db, id) && !ClusterUntouched(db, ClusterOf(db, id, l)))
  {
    ClusterContactedMeaning(db, ClusterOf(db, id, db.leads[id]));
    OwnReasons(db, id);
  }

  lemma OwnReasons(db: Db, id: LeadId)
    requires id in db.leads
    ensures var l := db.leads[id];
      EvaluateContactBlock(l, HasOutbound(db.messages, id), id in db.contacts)
      == if l.status != LeadDiscovered then Some(StatusNotDiscovered) else if l.thread != None then Some(ThreadExists)
         else if WrittenTo(db, id) then Some(OutboundMessageExists) else if id in db.contacts
         then Some(HostContactLedger) else None
    ensures Contacted(db, id)
       <==> db.leads[id].status != LeadDiscovered || db.leads[id].thread != None || WrittenTo(db,
           id) || id in db.contacts
  {
  }

  // ---------- the cold queue ----------

  /** The rows the cold query offers. */
  lemma ColdRowMeans(cfg: QueueConfig, db: Db, id: LeadId)
    requires id in db.leads
    ensures var l := db.leads[id];
      ColdRow(cfg, db, id)
      <==> && l.status == LeadDiscovered && l.thread == None && l.icpSkip == None
           && l.total >= cfg.minProperties && l.total <= cfg.maxProperties
           && id !in db.contacts && !WrittenTo(db, id) && id !in cfg.excluded
           && (l.superhost || !cfg.requireSuperhost)
           && (cfg.market != None ==> l.market == cfg.market)
           && (cfg.market == None && cfg.marketsAtQuota != {} ==>
             l.market != None && l.market.value !in cfg.marketsAtQuota)
  {
  }

  lemma {:induction false} AcceptedMembers(rules: Rules, db: Db, rows: seq<LeadId>, k: LeadId)
    requires forall i :: 0 <= i < |rows| ==> rows[i] in db.leads
    ensures k in GateAccepted(rules, db, rows) <==> k in rows && GateReason(rules, db, k) == None
    ensures |GateAccepted(rules, db, rows)| <= |rows|
  {
    if rows != [] {
      var front, last := rows[..|rows| - 1], rows[|rows| - 1];
      AcceptedMembers(rules, db, front, k);
      assert rows == front + [last];
      assert k in rows <==> k in front || k == last;
    }
  }

  /** The queue offers only cold rows the gate accepts, and when neither its window nor its limit cuts it short it
      offers every such lead. */
  lemma QueueMeans(rules: Rules, cfg: QueueConfig, db: Db, rows: seq<LeadId>, limit: nat, k: LeadId)
    requires AnswersColdQuery(cfg, db, rows)
    ensures var accepted := GateAccepted(rules, db, rows[..Min(4 * limit, |rows|)]);
      var eligible := accepted[..Min(limit, |accepted|)];
      && |eligible| <= limit
      && (k in eligible ==> k in db.leads && ColdRow(cfg, db, k) && GateReason(rules, db, k) == None)
      && (|rows| <= 4 * limit && |eligible| < limit && k in db.leads && ColdRow(cfg, db, k)
          && GateReason(rules, db, k) == None ==>
        k in eligible)
  {
    var window := rows[..Min(4 * limit, |rows|)];
    var accepted := GateAccepted(rules, db, window);
    AcceptedMembers(rules, db, window, k);
    if |rows| <= 4 * limit {
      assert window == rows;
    }
    if Min(limit, |accepted|) == |accepted| {
      assert accepted[..|accepted|] == accepted;
    }
  }

  // ---------- the lookup by listing ----------

  /** Exactly these leads are found: those under the listing's own id, under the id it is an alias of or one link away
      from that, those whose URL shows it, and the one its alias row names. */
  lemma LookupByListing(db: Db, x: string, k: LeadId)
    requires k in db.leads
    ensures var own, al := "manual:listing-" + x, db.aliases;
      k in LeadsByListing(db, x)
      <==> || db.leads[k].host == own
           || (own in al && (db.leads[k].host == al[own].canonical || Linked(al, al[own].canonical, db.leads[k].host)))
           || Contains(db.leads[k].url, "/rooms/" + x)
           || (own in al && al[own].lead == Some(k))
  {
    var own := "manual:listing-" + x;
    if own in db.aliases {
      HopIsOneLink(db.aliases, {db.aliases[own].canonical}, db.leads[k].host);
    }
  }
}
