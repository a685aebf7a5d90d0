/** The queries of the identity package, as they loop over the tables. */
module ClusterMethods {
  import opened Records
  import opened Texts
  import opened Identity
  import opened Gate
  import opened Store
  import Members

  /** `resolveCanonicalHostIds`: the id and every id one alias row away. */
  method ResolveCanonicalHostIds(db: Database, host: HostId) returns (ids: set<HostId>)
    ensures ids == Hop(db.aliases, {host})
  {
    ids := {host};
    var rows := RowsTouching(db.aliases, {host});
    ghost var done := {};
    var todo := rows;
    while todo != {}
      invariant done + todo == rows && done !! todo
      invariant ids == {host} + done + Canonicals(db.aliases, done)
      decreases todo
    {
      var a :| a in todo;
      ids := ids + {a, db.aliases[a].canonical};
      CanonicalsGrow(db.aliases, done, a);
      done, todo := done + {a}, todo - {a};
    }
    assert done == rows;
  }

  lemma CanonicalsGrow(al: map<HostId, Alias>, rows: set<HostId>, a: HostId)
    requires rows + {a} <= al.Keys
    ensures Canonicals(al, rows + {a}) == Canonicals(al, rows) + {al[a].canonical}
  {
  }

  lemma HopOfNothing(al: map<HostId, Alias>)
    ensures Hop(al, {}) == {}
  {
  }

  /** The ids registered for a lead's listings and threads, added one by one. */
  method AddSyntheticHosts(start: set<HostId>, listings: set<string>, threads: set<string>) returns (hosts: set<HostId>)
    ensures hosts == start + SyntheticHosts(listings, threads)
  {
    hosts := start;
    ghost var done: set<string> := {};
    var todo := listings;
    while todo != {}
      invariant done + todo == listings && done !! todo
      invariant hosts == start + SyntheticHosts(done, {})
      decreases todo
    {
      var l :| l in todo;
      hosts := hosts + {ListingHostId(l)};
      SyntheticAdds(done, {}, l);
      done, todo := done + {l}, todo - {l};
    }
    assert done == listings;
    ghost var seen: set<string> := {};
    todo := threads;
    while todo != {}
      invariant seen + todo == threads && seen !! todo
      invariant hosts == start + SyntheticHosts(listings, seen)
      decreases todo
    {
      var t :| t in todo;
      hosts := hosts + {ThreadHostId(t)} + {LegacyThreadHostId(t)};
      SyntheticAdds(listings, seen, t);
      seen, todo := seen + {t}, todo - {t};
    }
    assert seen == threads;
  }

  lemma SyntheticAdds(listings: set<string>, threads: set<string>, x: string)
    ensures SyntheticHosts(listings + {x}, threads) == SyntheticHosts(listings, threads) + {ListingHostId(x)}
    ensures SyntheticHosts(listings, threads + {x})
      == SyntheticHosts(listings, threads) + {ThreadHostId(x)} + {LegacyThreadHostId(x)}
  {
  }

  lemma SyntheticGrows(l1: set<string>, t1: set<string>, l2: set<string>, t2: set<string>)
    ensures SyntheticHosts(l1 + l2, t1 + t2) == SyntheticHosts(l1, t1) + SyntheticHosts(l2, t2)
  {
    forall h
      ensures h in SyntheticHosts(l1 + l2, t1 + t2) <==> h in SyntheticHosts(l1, t1) + SyntheticHosts(l2, t2)
    {
    }
  }

  /** One canonical-id lookup per host id. */
  method ExpandHosts(db: Database, hosts: set<HostId>) returns (expanded: set<HostId>)
    ensures expanded == Hop(db.aliases, hosts)
  {
    expanded := {};
    HopOfNothing(db.aliases);
    ghost var done: set<HostId> := {};
    var todo := hosts;
    while todo != {}
      invariant done + todo == hosts && done !! todo
      invariant expanded == Hop(db.aliases, done)
      decreases todo
    {
      var h :| h in todo;
      var ids := ResolveCanonicalHostIds(db, h);
      expanded := expanded + ids;
      HopUnion(db.aliases, done, {h});
      done, todo := done + {h}, todo - {h};
    }
    assert done == hosts;
  }

  function WithRow(al: map<HostId, Alias>, c: Cluster, a: HostId): Cluster
    requires a in al
  {
    Cluster(c.leadIds + AsSet(al[a].lead), c.hostIds + {a} + {al[a].canonical},
            c.listingIds + AsSet(DigitsOf(a, "manual:listing-")), c.threadIds + ThreadIdsOfHost(a))
  }

  ghost function WithRows(al: map<HostId, Alias>, c: Cluster, rows: set<HostId>): Cluster
    requires rows <= al.Keys
  {
    Cluster(c.leadIds + LeadsOfRows(al, rows), c.hostIds + rows + Canonicals(al, rows),
            c.listingIds + ListingsOfHosts(rows), c.threadIds + ThreadsOfHosts(rows))
  }

  lemma NoRows(al: map<HostId, Alias>, c: Cluster)
    ensures WithRows(al, c, {}) == c
  {
    assert LeadsOfRows(al, {}) == {} && Canonicals(al, {}) == {};
    assert ListingsOfHosts({}) == {} && ThreadsOfHosts({}) == {};
  }

  lemma AliasRowGrows(al: map<HostId, Alias>, c: Cluster, rows: set<HostId>, a: HostId)
    requires rows + {a} <= al.Keys
    ensures WithRows(al, c, rows + {a}) == WithRow(al, WithRows(al, c, rows), a)
  {
    PointedGrow(al, rows, a);
    CanonicalsGrow(al, rows, a);
    NumbersGrow(rows, a);
  }

  lemma PointedGrow(al: map<HostId, Alias>, rows: set<HostId>, a: HostId)
    requires rows + {a} <= al.Keys
    ensures LeadsOfRows(al, rows + {a}) == LeadsOfRows(al, rows) + AsSet(al[a].lead)
  {
  }

  lemma NumbersGrow(rows: set<HostId>, a: HostId)
    ensures ListingsOfHosts(rows + {a}) == ListingsOfHosts(rows) + AsSet(DigitsOf(a, "manual:listing-"))
    ensures ThreadsOfHosts(rows + {a}) == ThreadsOfHosts(rows) + ThreadIdsOfHost(a)
  {
  }

  /** The alias rows read once more: ids, lead ids, listings and threads. */
  method ReadAliasRows(db: Database, rows: set<HostId>, c: Cluster) returns (r: Cluster)
    requires rows <= db.aliases.Keys
    ensures r == WithRows(db.aliases, c, rows)
  {
    r := c;
    ghost var done: set<HostId> := {};
    var todo := rows;
    NoRows(db.aliases, c);
    while todo != {}
      invariant done + todo == rows && done !! todo
      invariant r == WithRows(db.aliases, c, done)
      decreases todo
    {
      var a :| a in todo;
      r := WithRow(db.aliases, r, a);
      AliasRowGrows(db.aliases, c, done, a);
      done, todo := done + {a}, todo - {a};
    }
    assert done == rows;
  }

  /** A cluster extended by leads, their host ids, and the listings and threads they carry. */
  function Extend(c: Cluster, ids: set<LeadId>, hosts: set<HostId>, listings: set<string>,
                  threads: set<string>): Cluster {
    Cluster(c.leadIds + ids, c.hostIds + hosts + SyntheticHosts(listings, threads), c.listingIds + listings,
        c.threadIds + threads)
  }

  ghost function WithLeads(leads: map<LeadId, Lead>, c: Cluster, ids: set<LeadId>): Cluster
    requires ids <= leads.Keys
  {
    Extend(c, ids, HostsOfLeads(leads, ids), ListingsOfLeads(leads, ids), ThreadsOfLeads(leads, ids))
  }

  lemma NoLeads(leads: map<LeadId, Lead>, c: Cluster)
    ensures WithLeads(leads, c, {}) == c
  {
    assert ListingsOfLeads(leads, {}) == {} && ThreadsOfLeads(leads, {}) == {} && HostsOfLeads(leads, {}) == {};
    assert SyntheticHosts({}, {}) == {};
  }

  lemma ExtendTwice(c: Cluster, i1: set<LeadId>, h1: set<HostId>, l1: set<string>, t1: set<string>,
                    i2: set<LeadId>, h2: set<HostId>, l2: set<string>, t2: set<string>)
    ensures Extend(Extend(c, i1, h1, l1, t1), i2, h2, l2, t2) == Extend(c, i1 + i2, h1 + h2, l1 + l2, t1 + t2)
  {
    SyntheticGrows(l1, t1, l2, t2);
  }

  lemma LeadSetsGrow(leads: map<LeadId, Lead>, done: set<LeadId>, k: LeadId)
    requires done + {k} <= leads.Keys
    ensures ListingsOfLeads(leads, done + {k}) == ListingsOfLeads(leads, done) + CollectListingIds(leads[k])
    ensures ThreadsOfLeads(leads, done + {k}) == ThreadsOfLeads(leads, done) + CollectThreadIds(leads[k])
    ensures HostsOfLeads(leads, done + {k}) == HostsOfLeads(leads, done) + {leads[k].host}
  {
    ListingsGrow(leads, done, k);
    ThreadsGrow(leads, done, k);
  }

  lemma ListingsGrow(leads: map<LeadId, Lead>, done: set<LeadId>, k: LeadId)
    requires done + {k} <= leads.Keys
    ensures ListingsOfLeads(leads, done + {k}) == ListingsOfLeads(leads, done) + CollectListingIds(leads[k])
  {
  }

  lemma ThreadsGrow(leads: map<LeadId, Lead>, done: set<LeadId>, k: LeadId)
    requires done + {k} <= leads.Keys
    ensures ThreadsOfLeads(leads, done + {k}) == ThreadsOfLeads(leads, done) + CollectThreadIds(leads[k])
  {
  }

  lemma RelatedGrows(leads: map<LeadId, Lead>, c: Cluster, done: set<LeadId>, k: LeadId)
    requires done + {k} <= leads.Keys
    ensures WithLeads(leads, c, done + {k})
         == Extend(WithLeads(leads, c, done), {k}, {leads[k].host}, CollectListingIds(leads[k]),
             CollectThreadIds(leads[k]))
  {
    LeadSetsGrow(leads, done, k);
    ExtendTwice(c, done, HostsOfLeads(leads, done), ListingsOfLeads(leads, done), ThreadsOfLeads(leads, done),
                {k}, {leads[k].host}, CollectListingIds(leads[k]), CollectThreadIds(leads[k]));
  }

  /** The related leads with their host ids, listings and threads. */
  method AddRelatedLeads(db: Database, related: set<LeadId>, c: Cluster) returns (r: Cluster)
    requires related <= db.leads.Keys
    ensures r == WithLeads(db.leads, c, related)
  {
    r := c;
    ghost var done: set<LeadId> := {};
    var todo := related;
    NoLeads(db.leads, c);
    while todo != {}
      invariant done + todo == related && done !! todo
      invariant r == WithLeads(db.leads, c, done)
      decreases todo
    {
      var k :| k in todo;
      var l := db.leads[k];
      var listings, threads := CollectListingIds(l), CollectThreadIds(l);
      var hosts := AddSyntheticHosts(r.hostIds + {l.host}, listings, threads);
      r := Cluster(r.leadIds + {k}, hosts, r.listingIds + listings, r.threadIds + threads);
      RelatedGrows(db.leads, c, done, k);
      done, todo := done + {k}, todo - {k};
    }
    assert done == related;
  }

  /** `resolveLeadIdentityCluster`: the lead, the leads named by alias rows read, and the stored leads of the same
      host. */
  method ResolveLeadIdentityCluster(db: Database, id: LeadId, l: Lead) returns (c: Cluster)
    ensures c == ClusterOf(db.Snapshot(), id, l)
    ensures forall k :: k in c.leadIds <==>
      || k == id
      || (exists a :: Members.IsRead(db.aliases, l, a) && db.aliases[a].lead == Some(k))
      || (k in db.leads && Members.SameHost(db.aliases, l, db.leads[k]))
  {
    var listings, threads := CollectListingIds(l), CollectThreadIds(l);
    var hosts := AddSyntheticHosts({l.host}, listings, threads);
    var expanded := ExpandHosts(db, hosts);
    var rows := RowsTouching(db.aliases, expanded);
    c := ReadAliasRows(db, rows, Cluster({id}, expanded, listings, threads));
    assert c.hostIds == AliasReach(db.aliases, l);
    var related := RelatedLeads(db.leads, c.hostIds, c.leadIds, c.listingIds, c.threadIds);
    c := AddRelatedLeads(db, related, c);
    forall k
      ensures k in c.leadIds <==>
        || k == id
        || (exists a :: Members.IsRead(db.aliases, l, a) && db.aliases[a].lead == Some(k))
        || (k in db.leads && Members.SameHost(db.aliases, l, db.leads[k]))
    {
      Members.LeadsOfTheCluster(db.Snapshot(), id, l, k);
    }
  }

  /** `findLeadsByListingId`; the alias id is unique, so there is at most one row. */
  method FindLeadsByListingId(db: Database, listing: string) returns (found: set<LeadId>)
    ensures found == LeadsByListing(db.Snapshot(), listing)
  {
    var own := ListingHostId(listing);
    var rows := set a | a in db.aliases && a == own;
    var hosts := {own};
    var pointed: set<LeadId> := {};
    var todo := rows;
    while todo != {}
      invariant todo <= rows
      invariant hosts == if own in todo || own !in db.aliases then {own} else HostsOfListing(db.aliases, listing)
      invariant pointed == if own in todo || own !in db.aliases then {} else AsSet(db.aliases[own].lead)
      decreases todo
    {
      var a :| a in todo;
      var more := ResolveCanonicalHostIds(db, db.aliases[a].canonical);
      hosts := hosts + {db.aliases[a].canonical} + more;
      pointed := pointed + AsSet(db.aliases[a].lead);
      todo := todo - {a};
    }
    found := set k | k in db.leads
      && (db.leads[k].host in hosts || Contains(db.leads[k].url, "/rooms/" + listing) || k in pointed);
  }

  /** Why a cluster counts as contacted, and by which lead. */
  datatype Evidence = Evidence(reason: BlockReason, lead: LeadId)

  /** The reason is the first that applies, in the order rows, ledger, messages, and the lead shows it. */
  ghost predicate IsEvidence(db: Db, c: Cluster, e: Evidence) {
    var byRow := exists k :: k in c.leadIds && k in db.leads && RowContacted(db.leads[k]);
    var byLedger := exists k :: k in db.contacts && (k in c.leadIds || db.contacts[k].host in c.hostIds);
    match e.reason
    case StatusNotDiscovered => e.lead in c.leadIds && e.lead in db.leads && !db.leads[e.lead].status.LeadDiscovered?
    case ThreadExists =>
      e.lead in c.leadIds && e.lead in db.leads && db.leads[e.lead].status.LeadDiscovered? &&
          db.leads[e.lead].thread.Some?
    case HostContactLedger => !byRow && e.lead in db.contacts &&
        (e.lead in c.leadIds || db.contacts[e.lead].host in c.hostIds)
    case OutboundMessageExists => !byRow && !byLedger && e.lead in c.leadIds && HasOutbound(db.messages, e.lead)
    case _ => false
  }

  /** `isClusterContacted`: the rows of the cluster's leads, its ledger rows, its outbound messages. */
  method IsClusterContacted(db: Database, c: Cluster) returns (found: Option<Evidence>)
    ensures found.Some? <==> ClusterContacted(db.Snapshot(), c)
    ensures found.Some? ==> IsEvidence(db.Snapshot(), c, found.value)
  {
    ghost var done: set<LeadId> := {};
    var leads := set k | k in db.leads && k in c.leadIds;
    var todo := leads;
    while todo != {}
      invariant done + todo == leads && done !! todo
      invariant forall k :: k in done ==> !RowContacted(db.leads[k])
      decreases todo
    {
      var k :| k in todo;
      if !db.leads[k].status.LeadDiscovered? {
        return Some(Evidence(StatusNotDiscovered, k));
      }
      if db.leads[k].thread.Some? {
        return Some(Evidence(ThreadExists, k));
      }
      done, todo := done + {k}, todo - {k};
    }
    assert done == leads;
    var ledger := set k | k in db.contacts && (k in c.leadIds || db.contacts[k].host in c.hostIds);
    if ledger != {} {
      var k :| k in ledger;
      return Some(Evidence(HostContactLedger, k));
    }
    assert forall k :: k in db.contacts && (k in c.leadIds || db.contacts[k].host in c.hostIds) ==> k in ledger;
    if i :| 0 <= i < |db.messages| && db.messages[i].lead in c.leadIds && db.messages[i].direction.Outbound? {
      return Some(Evidence(OutboundMessageExists, db.messages[i].lead));
    }
    return None;
  }

  /** `assertColdOutboundAllowed`: eligibility, the lead's own four signals, then its cluster. The lead that comes with
      the verdict is the one asked about, or the one of the cluster that was contacted. */
  method AssertColdOutboundAllowed(db: Database, rules: Rules, id: LeadId)
    returns (reason: Option<BlockReason>, lead: LeadId)
    requires id in db.leads
    ensures reason == GateReason(rules, db.Snapshot(), id)
    ensures reason != Some(ClusterAlreadyContacted) ==> lead == id
    ensures reason == Some(ClusterAlreadyContacted) ==>
      exists e :: IsEvidence(db.Snapshot(), ClusterOf(db.Snapshot(), id, db.leads[id]), e) &&
          lead == if e.lead in db.leads then e.lead else id
  {
    var l := db.leads[id];
    lead := id;
    if !rules.icp(l) {
      return Some(IcpIneligible), id;
    }
    reason := EvaluateContactBlock(l, HasOutbound(db.messages, id), id in db.contacts);
    if reason.Some? {
      return;
    }
    var c := ResolveLeadIdentityCluster(db, id, l);
    var found := IsClusterContacted(db, c);
    if found.Some? {
      reason := Some(ClusterAlreadyContacted);
      lead := if found.value.lead in db.leads then found.value.lead else id;
    }
  }

  /** The in-process test of the cold queue on one row. */
  method PassesColdTest(db: Database, rules: Rules, id: LeadId) returns (passes: bool)
    requires id in db.leads
    ensures passes == PassesQueue(rules, db.Snapshot(), id)
  {
    if !rules.icp(db.leads[id]) || RowContacted(db.leads[id]) {
      return false;
    }
    var c := ResolveLeadIdentityCluster(db, id, db.leads[id]);
    var found := IsClusterContacted(db, c);
    passes := found.None?;
  }

  /** `findEligibleColdLeads`: from the first four times `limit` rows of the cold query it keeps the first `limit`
      leads the gate accepts. */
  method FindEligibleColdLeads(db: Database, rules: Rules, cfg: QueueConfig, rows: seq<LeadId>, limit: nat)
    returns (eligible: seq<LeadId>)
    requires db.Valid() && AnswersColdQuery(cfg, db.Snapshot(), rows)
    ensures var accepted := GateAccepted(rules, db.Snapshot(), rows[..Min(4 * limit, |rows|)]);
      eligible == accepted[..Min(limit, |accepted|)]
  {
    var window := rows[..Min(4 * limit, |rows|)];
    eligible := [];
    var i := 0;
    while i < |window| && |eligible| < limit
      invariant 0 <= i <= |window|
      invariant eligible == GateAccepted(rules, db.Snapshot(), window[..i]) && |eligible| <= limit
    {
      var passes := PassesColdTest(db, rules, window[i]);
      AcceptedStep(rules, cfg, db.Snapshot(), window, i);
      if passes {
        eligible := eligible + [window[i]];
      }
      i := i + 1;
    }
    AcceptedPrefix(rules, db.Snapshot(), window, i);
    assert window[..|window|] == window;
  }

  lemma AcceptedStep(rules: Rules, cfg: QueueConfig, db: Db, rows: seq<LeadId>, i: nat)
    requires Sound(db) && i < |rows| && forall k :: 0 <= k < |rows| ==> rows[k] in db.leads && ColdRow(cfg, db, rows[k])
    ensures GateAccepted(rules, db, rows[..i + 1])
         == GateAccepted(rules, db, rows[..i]) + if PassesQueue(rules, db, rows[i]) then [rows[i]] else []
  {
    assert rows[..i + 1][..i] == rows[..i];
    QueueTestIsGate(rules, cfg, db, rows[i]);
  }

  lemma {:induction false} AcceptedPrefix(rules: Rules, db: Db, rows: seq<LeadId>, i: nat)
    requires i <= |rows| && forall k :: 0 <= k < |rows| ==> rows[k] in db.leads
    ensures GateAccepted(rules, db, rows[..i]) <= GateAccepted(rules, db, rows)
    decreases |rows| - i
  {
    if i == |rows| {
      assert rows[..i] == rows;
    } else {
      AcceptedPrefix(rules, db, rows, i + 1);
      assert rows[..i + 1][..i] == rows[..i];
    }
  }
}
