/** How long the gate remembers a host id after its lead has been merged away. */
module Recanonical {
  import opened Records
  import opened Texts
  import opened Identity
  import opened Gate
  import opened Merge

  /** The row of a lead nobody has written to yet. */
  predicate IsFresh(l: Lead) {
    l.status.LeadDiscovered? && l.thread.None?
  }

  function Created(db: Db, f: LeadId, l: Lead): Db {
    db.(leads := db.leads[f := l])
  }

  lemma CreationKeepsIndices(db: Db, f: LeadId, l: Lead)
    requires Sound(db) && f !in db.leads && HostFree(db.leads, l.host) && l.thread.None?
    ensures Sound(Created(db, f, l))
    ensures forall k :: k in db.leads ==> (Contacted(Created(db, f, l), k) <==> Contacted(db, k))
    ensures IsFresh(l) ==> !Contacted(Created(db, f, l), f)
  {
  }

  /** Two alias rows suffice: the id stands for another, whose row names a contacted lead. */
  lemma ChainOfTwoBlocks(rules: Rules, db: Db, f: LeadId, e: LeadId)
    requires Sound(db) && f in db.leads && e in db.leads && Contacted(db, e)
    requires db.leads[f].host in db.aliases
    requires var mid := db.aliases[db.leads[f].host].canonical;
      db.aliases[db.leads[f].host].lead == Some(e) || (mid in db.aliases && db.aliases[mid].lead == Some(e))
    ensures GateReason(rules, db, f).Some?
  {
    var l := db.leads[f];
    HopFollows(db.aliases, Seeds(l), l.host);
    var row := if db.aliases[l.host].lead == Some(e) then l.host else db.aliases[l.host].canonical;
    PointedLeadInCluster(db, f, l, row);
    GateMeaning(rules, db, f);
  }

  /** After a duplicate with host id D is merged, a fresh lead under D is refused if either lead was contacted. */
  lemma OneMergeIsRemembered(rules: Rules, db: Db, c: LeadId, d: LeadId, f: LeadId, blank: Lead)
    requires Sound(db) && c in db.leads && d in db.leads && c != d && MergeCommits(db, c, d)
    requires var n := Merged(db, c, d);
      f !in n.leads && HostFree(n.leads, blank.host) && IsFresh(blank) && blank.host == db.leads[d].host
    requires Contacted(db, c) || Contacted(db, d)
    ensures GateReason(rules, Created(Merged(db, c, d), f, blank), f).Some?
  {
    var n := Merged(db, c, d);
    MergeConserves(db, c, d);
    CreationKeepsIndices(n, f, blank);
    ChainOfTwoBlocks(rules, Created(n, f, blank), f, c);
  }

  /** Without alias rows, contacted leads of other numeric host ids block nobody whose listing they do not name. */
  lemma StrangersDoNotBlock(rules: Rules, db: Db, f: LeadId)
    requires Consistent(db) && db.aliases == map[] && f in db.leads && !Contacted(db, f)
    requires rules.icp(db.leads[f]) && IsNumericHostId(db.leads[f].host)
    requires forall r :: r in db.leads && Contacted(db, r) ==>
      IsNumericHostId(db.leads[r].host) && !UrlNamesListing(db.leads[r].url, CollectListingIds(db.leads[f]))
    ensures GateReason(rules, db, f).None?
  {
    var l := db.leads[f];
    LonelySeeds(db, f);
    forall r | r in db.leads && Contacted(db, r)
      ensures r !in ClusterOf(db, f, l).leadIds && db.leads[r].host !in ClusterOf(db, f, l).hostIds
    {
      SurvivorNotRelated(db, f, r);
    }
    AvoidedIsUntouched(db, ClusterOf(db, f, l));
    GateMeaning(rules, db, f);
  }

  lemma AvoidedIsUntouched(db: Db, c: Cluster)
    requires Consistent(db)
    requires forall r :: r in db.leads && Contacted(db, r) ==> r !in c.leadIds && db.leads[r].host !in c.hostIds
    ensures ClusterUntouched(db, c)
  {
  }

  /** Without alias rows a lead with a numeric host id knows only itself and its listing. */
  lemma LonelySeeds(db: Db, f: LeadId)
    requires db.aliases == map[] && f in db.leads && db.leads[f].thread.None? && IsNumericHostId(db.leads[f].host)
    ensures var l := db.leads[f];
      && KnownThreads(db.aliases, l) == {} && PointedLeads(db.aliases, f, l) == {f}
      && KnownListings(db.aliases, l) == CollectListingIds(l)
      && forall h :: IsNumericHostId(h) && h != l.host ==> h !in AliasReach(db.aliases, l)
  {
    var l := db.leads[f];
    NumericIdsAreNotSynthetic(l.host);
    assert AliasReach(db.aliases, l) == Seeds(l);
    forall h | IsNumericHostId(h) && h != l.host
      ensures h !in AliasReach(db.aliases, l)
    {
      NumericIdNotAmongSynthetic(h, CollectListingIds(l), CollectThreadIds(l));
    }
  }

  // ---------- exactly how far the memory reaches ----------

  /** What a series of merges leaves behind: the alias rows `hs[0] -> hs[1] -> ... -> hs[n]` between numeric host
      ids, each naming the survivor of its own merge, the last one naming `r`, which is contacted. The lead `f` is
      freshly created under `hs[0]`; no other row and no listing connects it to a contacted lead. */
  ghost predicate MergeTrail(rules: Rules, db: Db, hs: seq<HostId>, f: LeadId, r: LeadId) {
    && |hs| >= 2 && (forall i :: 0 <= i < |hs| ==> IsNumericHostId(hs[i]))
    && HeadAndSurvivor(rules, db, hs[0], f, hs[|hs| - 1], r)
    && IsTrail(db.aliases, hs, Seeds(db.leads[f])) && NamesSurvivors(db, hs, r) && ContactOffTrail(db, hs, f)
  }

  /** A trail of `n` merges leads from the host id of `f` to a contacted survivor. */
  ghost predicate OnTrail(rules: Rules, db: Db, f: LeadId, n: nat) {
    exists hs, r :: |hs| == n + 1 && MergeTrail(rules, db, hs, f, r)
  }

  /** The last row of the trail names the survivor, the others nobody who was contacted. */
  ghost predicate NamesSurvivors(db: Db, hs: seq<HostId>, r: LeadId)
    requires |hs| >= 2
  {
    && (forall i :: 0 <= i < |hs| - 1 ==> hs[i] in db.aliases)
    && (forall i :: 0 <= i < |hs| - 2 ==> !NamesContacted(db, db.aliases[hs[i]]))
    && db.aliases[hs[|hs| - 2]].lead == Some(r)
  }

  ghost predicate NamesContacted(db: Db, row: Alias) {
    row.lead.Some? && row.lead.value in db.leads && Contacted(db, row.lead.value)
  }

  /** The fresh lead under `first`, and the contacted `r` under `last`. */
  ghost predicate HeadAndSurvivor(rules: Rules, db: Db, first: HostId, f: LeadId, last: HostId, r: LeadId) {
    && Consistent(db) && f in db.leads && r in db.leads && f != r
    && db.leads[f].host == first && IsFresh(db.leads[f]) && rules.icp(db.leads[f])
    && db.leads[r].host == last && Contacted(db, r)
  }

  /** Contacted leads have numeric host ids, none on the trail before its end, and do not name the listing of `f`. */
  ghost predicate ContactOffTrail(db: Db, hs: seq<HostId>, f: LeadId)
    requires |hs| >= 1 && f in db.leads
  {
    forall k :: k in db.leads && Contacted(db, k) ==>
      && IsNumericHostId(db.leads[k].host) && db.leads[k].host !in hs[..|hs| - 1]
      && !UrlNamesListing(db.leads[k].url, CollectListingIds(db.leads[f]))
  }

  /** The rows that link the ids of `hs` one after the other; no other row touches them or the ids of `apart`. */
  ghost predicate IsTrail(al: map<HostId, Alias>, hs: seq<HostId>, apart: set<HostId>) {
    && |hs| >= 1
    && (forall i, j :: 0 <= i < j < |hs| ==> hs[i] != hs[j])
    && (forall i :: 0 <= i < |hs| - 1 ==> hs[i] in al && al[hs[i]].canonical == hs[i + 1])
    && (forall a :: a in al ==> a in hs[..|hs| - 1] || RowIsApart(al, a, hs, apart))
  }

  predicate RowIsApart(al: map<HostId, Alias>, a: HostId, hs: seq<HostId>, apart: set<HostId>)
    requires a in al
  {
    a !in hs && al[a].canonical !in hs && a !in apart && al[a].canonical !in apart
  }

  lemma NumericIdsAreNotSynthetic(h: HostId)
    requires IsNumericHostId(h)
    ensures DigitsOf(h, "manual:listing-").None? && DigitsOf(h, "manual:thread-").None? && DigitsOf(h, "manual:").None?
    ensures forall s: string :: h != "manual:listing-" + s && h != "manual:thread-" + s && h != "manual:" + s
  {
    assert IsDigit(h[0]);
    forall s: string
      ensures h != "manual:listing-" + s && h != "manual:thread-" + s && h != "manual:" + s
    {
      assert ("manual:listing-" + s)[0] == 'm' && ("manual:thread-" + s)[0] == 'm' && ("manual:" + s)[0] == 'm';
    }
  }

  lemma SeedsOfTrail(db: Db, hs: seq<HostId>, f: LeadId)
    requires f in db.leads && |hs| >= 1 && db.leads[f].host == hs[0]
    requires forall i :: 0 <= i < |hs| ==> IsNumericHostId(hs[i])
    requires forall i, j :: 0 <= i < j < |hs| ==> hs[i] != hs[j]
    ensures forall i :: 0 <= i < |hs| ==> (hs[i] in Seeds(db.leads[f]) <==> i <= 0)
  {
    forall i | 0 <= i < |hs|
      ensures hs[i] in Seeds(db.leads[f]) <==> i <= 0
    {
      NumericIdNotAmongSynthetic(hs[i], CollectListingIds(db.leads[f]), CollectThreadIds(db.leads[f]));
    }
  }

  /** The neighbours of a trail id are the ids before and after it. */
  lemma TrailNeighbour(al: map<HostId, Alias>, hs: seq<HostId>, apart: set<HostId>, x: HostId, i: nat)
    requires IsTrail(al, hs, apart) && i < |hs| && Linked(al, x, hs[i])
    ensures (i > 0 && x == hs[i - 1]) || (i + 1 < |hs| && x == hs[i + 1])
  {
    if x in al && al[x].canonical == hs[i] {
      assert !RowIsApart(al, x, hs, apart);
      var j :| 0 <= j < |hs| - 1 && hs[j] == x;
      assert hs[j + 1] == hs[i];
    } else {
      assert !RowIsApart(al, hs[i], hs, apart);
      var j :| 0 <= j < |hs| - 1 && hs[j] == hs[i];
      assert x == hs[j + 1];
    }
  }

  /** The other ids have no neighbours on the trail, and those of `apart` none at all. */
  lemma ApartHasNoNeighbour(al: map<HostId, Alias>, hs: seq<HostId>, apart: set<HostId>, x: HostId, y: HostId)
    requires IsTrail(al, hs, apart) && x in apart && x !in hs
    ensures !Linked(al, x, y)
  {
    assert x !in al;
    if y in al && y in hs[..|hs| - 1] {
      var j :| 0 <= j < |hs| - 1 && hs[j] == y;
      assert al[y].canonical == hs[j + 1];
    }
  }

  /** One hop from a set that holds the trail up to `n` and otherwise only ids of `apart` adds the next trail id. */
  lemma TrailStep(al: map<HostId, Alias>, hs: seq<HostId>, apart: set<HostId>, s: set<HostId>, n: nat, y: HostId)
    requires IsTrail(al, hs, apart) && n + 1 < |hs|
    requires forall x :: x in s ==> x in apart || x in hs
    requires forall i :: 0 <= i < |hs| ==> (hs[i] in s <==> i <= n)
    ensures y in Hop(al, s) <==> y in s || y == hs[n + 1]
  {
    HopIsOneLink(al, s, y);
    if y == hs[n + 1] {
      assert hs[n] in s && Linked(al, hs[n], y);
    }
    if x :| x in s && Linked(al, x, y) {
      if x !in hs {
        ApartHasNoNeighbour(al, hs, apart, x, y);
      }
      var i :| 0 <= i < |hs| && hs[i] == x;
      TrailNeighbour(al, hs, apart, y, i);
    }
  }

  lemma TrailRows(al: map<HostId, Alias>, hs: seq<HostId>, apart: set<HostId>, s: set<HostId>)
    requires IsTrail(al, hs, apart) && |hs| > 3
    requires forall x :: x in s ==> x in apart || x in hs
    requires forall i :: 0 <= i < |hs| ==> (hs[i] in s <==> i <= 1)
    ensures RowsTouching(al, s) == {hs[0], hs[1]}
  {
    forall a | a in al
      ensures a in RowsTouching(al, s) <==> a == hs[0] || a == hs[1]
    {
      if a in hs[..|hs| - 1] {
        var i :| 0 <= i < |hs| - 1 && hs[i] == a;
        assert al[a].canonical == hs[i + 1];
      } else {
        assert RowIsApart(al, a, hs, apart);
      }
    }
  }

  /** On a trail of at least three merges the cluster reaches two ids further and stops there. */
  lemma TrailReach(db: Db, hs: seq<HostId>, f: LeadId)
    requires f in db.leads && |hs| > 3 && db.leads[f].host == hs[0]
    requires forall i :: 0 <= i < |hs| ==> IsNumericHostId(hs[i])
    requires IsTrail(db.aliases, hs, Seeds(db.leads[f]))
    ensures RowsRead(db.aliases, db.leads[f]) == {hs[0], hs[1]}
    ensures var l := db.leads[f];
      forall y :: y in AliasReach(db.aliases, l) <==> y in Seeds(l) || y == hs[1] || y == hs[2]
  {
    var al, seeds := db.aliases, Seeds(db.leads[f]);
    SeedsOfTrail(db, hs, f);
    forall y
      ensures y in Hop(al, seeds) <==> y in seeds || y == hs[1]
    {
      TrailStep(al, hs, seeds, seeds, 0, y);
    }
    forall y
      ensures y in Hop(al, Hop(al, seeds)) <==> y in Hop(al, seeds) || y == hs[2]
    {
      TrailStep(al, hs, seeds, Hop(al, seeds), 1, y);
    }
    TrailRows(al, hs, seeds, Hop(al, seeds));
  }

  /** The gate still refuses the id at the head of a trail iff at most two merges separate it from the survivor. */
  lemma TrailMemory(rules: Rules, db: Db, f: LeadId, n: nat)
    requires OnTrail(rules, db, f, n)
    ensures f in db.leads && (GateReason(rules, db, f).Some? <==> n <= 2)
  {
    var hs, r :| |hs| == n + 1 && MergeTrail(rules, db, hs, f, r);
    if |hs| <= 3 {
      assert db.aliases[hs[0]].canonical == hs[1];
      ChainOfTwoBlocks(rules, db, f, r);
    } else {
      TrailReach(db, hs, f);
      TrailLeavesContactOut(rules, db, hs, f, r);
      GateMeaning(rules, db, f);
    }
  }

  lemma TrailLeavesContactOut(rules: Rules, db: Db, hs: seq<HostId>, f: LeadId, r: LeadId)
    requires MergeTrail(rules, db, hs, f, r) && |hs| > 3
    requires RowsRead(db.aliases, db.leads[f]) == {hs[0], hs[1]}
    requires var l := db.leads[f];
      forall y :: y in AliasReach(db.aliases, l) <==> y in Seeds(l) || y == hs[1] || y == hs[2]
    ensures ClusterUntouched(db, ClusterOf(db, f, db.leads[f]))
  {
    TrailKnowsNothingElse(db, hs, f);
    forall k | k in db.leads && Contacted(db, k)
      ensures k !in ClusterOf(db, f, db.leads[f]).leadIds && db.leads[k].host !in ClusterOf(db, f, db.leads[f]).hostIds
    {
      ContactNotPointedAt(db, hs, f, r, k);
      ContactNotReached(db, hs, f, k);
      SurvivorNotRelated(db, f, k);
    }
    AvoidedIsUntouched(db, ClusterOf(db, f, db.leads[f]));
  }

  lemma ContactNotPointedAt(db: Db, hs: seq<HostId>, f: LeadId, r: LeadId, k: LeadId)
    requires |hs| > 3 && f in db.leads && k in db.leads && Contacted(db, k)
    requires db.leads[f].host == hs[0] && NamesSurvivors(db, hs, r) && ContactOffTrail(db, hs, f)
    requires RowsRead(db.aliases, db.leads[f]) == {hs[0], hs[1]}
    ensures k !in PointedLeads(db.aliases, f, db.leads[f])
  {
    assert !NamesContacted(db, db.aliases[hs[0]]) && !NamesContacted(db, db.aliases[hs[1]]);
  }

  lemma ContactNotReached(db: Db, hs: seq<HostId>, f: LeadId, k: LeadId)
    requires |hs| > 3 && f in db.leads && k in db.leads && Contacted(db, k)
    requires db.leads[f].host == hs[0] && ContactOffTrail(db, hs, f)
    requires var l := db.leads[f];
      forall y :: y in AliasReach(db.aliases, l) <==> y in Seeds(l) || y == hs[1] || y == hs[2]
    ensures db.leads[k].host !in AliasReach(db.aliases, db.leads[f])
  {
    var early := hs[..|hs| - 1];
    assert early[0] == hs[0] && early[1] == hs[1] && early[2] == hs[2];
    NumericIdNotAmongSynthetic(db.leads[k].host, CollectListingIds(db.leads[f]), CollectThreadIds(db.leads[f]));
  }

  /** A lead whose numeric host id the aliases do not reach, that no row points at and no listing names, stays
      out of the cluster, and so does its host id. */
  lemma SurvivorNotRelated(db: Db, f: LeadId, r: LeadId)
    requires HostsUnique(db.leads) && f in db.leads && r in db.leads && IsNumericHostId(db.leads[r].host)
    requires r !in PointedLeads(db.aliases, f, db.leads[f])
    requires db.leads[r].host !in AliasReach(db.aliases, db.leads[f])
    requires KnownThreads(db.aliases, db.leads[f]) == {}
    requires !UrlNamesListing(db.leads[r].url, KnownListings(db.aliases, db.leads[f]))
    ensures r !in ClusterOf(db, f, db.leads[f]).leadIds
    ensures db.leads[r].host !in ClusterOf(db, f, db.leads[f]).hostIds
  {
    var l, h := db.leads[f], db.leads[r].host;
    NumericIdsAreNotSynthetic(h);
    var related := RelatedLeads(db.leads, AliasReach(db.aliases, l), PointedLeads(db.aliases, f, l),
                                KnownListings(db.aliases, l), KnownThreads(db.aliases, l));
    assert r !in related;
    assert h !in HostsOfLeads(db.leads, related);
    NumericIdNotAmongSynthetic(h, ListingsOfLeads(db.leads, related), ThreadsOfLeads(db.leads, related));
  }

  lemma NumericIdNotAmongSynthetic(h: HostId, listings: set<string>, threads: set<string>)
    requires IsNumericHostId(h)
    ensures h !in SyntheticHosts(listings, threads)
  {
    NumericIdsAreNotSynthetic(h);
  }

  lemma TrailKnowsNothingElse(db: Db, hs: seq<HostId>, f: LeadId)
    requires f in db.leads && |hs| > 3 && IsNumericHostId(hs[0]) && IsNumericHostId(hs[1])
    requires db.leads[f].host == hs[0] && IsFresh(db.leads[f])
    requires RowsRead(db.aliases, db.leads[f]) == {hs[0], hs[1]}
    ensures KnownListings(db.aliases, db.leads[f]) == CollectListingIds(db.leads[f])
    ensures KnownThreads(db.aliases, db.leads[f]) == {}
  {
    NumericIdsAreNotSynthetic(hs[0]);
    NumericIdsAreNotSynthetic(hs[1]);
    assert ThreadIdsOfHost(hs[0]) == {} && ThreadIdsOfHost(hs[1]) == {};
    assert ListingsOfHosts({hs[0], hs[1]}) == {};
    assert ThreadsOfHosts({hs[0], hs[1]}) == {};
    assert CollectThreadIds(db.leads[f]) == {};
  }
}
