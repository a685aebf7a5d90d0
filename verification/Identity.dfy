/** Who is the same host: the alias graph, the identity cluster of a lead and how far it reaches. */
module Identity {
  import opened Records
  import opened Texts

  function ListingHostId(listing: string): HostId { "manual:listing-" + listing }

  function ThreadHostId(thread: string): HostId { "manual:thread-" + thread }

  function LegacyThreadHostId(thread: string): HostId { "manual:" + thread }

  function ParseListingId(url: string): Option<string> { DigitsAfter(url, "/rooms/") }

  function ParseThreadId(url: string): Option<string> { DigitsAfter(url, "/guest/messages/") }

  predicate IsNumericHostId(h: HostId) { h != "" && AllDigits(h) }

  function CollectListingIds(l: Lead): set<string> {
    AsSet(ParseListingId(l.url)) + AsSet(DigitsOf(l.host, "manual:listing-"))
  }

  function CollectThreadIds(l: Lead): set<string> {
    (if l.thread.Some? then AsSet(ParseThreadId(l.thread.value)) else {}) + ThreadIdsOfHost(l.host)
  }

  function ThreadIdsOfHost(h: HostId): set<string> {
    AsSet(DigitsOf(h, "manual:thread-")) + AsSet(DigitsOf(h, "manual:"))
  }

  /** The synthetic host ids under which a listing or a thread may be registered. */
  function SyntheticHosts(listings: set<string>, threads: set<string>): set<HostId> {
    (set l | l in listings :: ListingHostId(l))
    + (set t | t in threads :: ThreadHostId(t))
    + (set t | t in threads :: LegacyThreadHostId(t))
  }

  /** Alias rows with either end in `s`, by alias id. */
  function RowsTouching(al: map<HostId, Alias>, s: set<HostId>): set<HostId> {
    set a | a in al && (a in s || al[a].canonical in s)
  }

  function Canonicals(al: map<HostId, Alias>, rows: set<HostId>): set<HostId>
    requires rows <= al.Keys
  {
    set a | a in rows :: al[a].canonical
  }

  /** One undirected step through the alias table. */
  function Hop(al: map<HostId, Alias>, s: set<HostId>): set<HostId> {
    s + RowsTouching(al, s) + Canonicals(al, RowsTouching(al, s))
  }

  function Seeds(l: Lead): set<HostId> {
    {l.host} + SyntheticHosts(CollectListingIds(l), CollectThreadIds(l))
  }

  /** The cluster's host ids before related leads are added. */
  function AliasReach(al: map<HostId, Alias>, l: Lead): set<HostId> {
    Hop(al, Hop(al, Seeds(l)))
  }

  datatype Cluster = Cluster(leadIds: set<LeadId>, hostIds: set<HostId>, listingIds: set<string>,
      threadIds: set<string>)

  predicate UrlNamesListing(url: string, listings: set<string>) {
    exists l :: l in listings && Contains(url, "/rooms/" + l)
  }

  predicate ThreadNames(thread: Option<ThreadUrl>, threads: set<string>) {
    thread.Some? && exists t :: t in threads && Contains(thread.value, t)
  }

  /** The lead filter of the cluster query. */
  predicate Related(id: LeadId, l: Lead, hosts: set<HostId>, ids: set<LeadId>, listings: set<string>,
                    threads: set<string>) {
    || l.host in hosts
    || id in ids
    || UrlNamesListing(l.url, listings)
    || ThreadNames(l.thread, threads)
    || (exists t :: t in threads && (l.host == ThreadHostId(t) || l.host == LegacyThreadHostId(t)))
  }

  function RelatedLeads(leads: map<LeadId, Lead>, hosts: set<HostId>, ids: set<LeadId>, listings: set<string>,
                        threads: set<string>)
    : set<LeadId>
  {
    set k | k in leads && Related(k, leads[k], hosts, ids, listings, threads)
  }

  function LeadsOfRows(al: map<HostId, Alias>, rows: set<HostId>): set<LeadId>
    requires rows <= al.Keys
  {
    set a | a in rows && al[a].lead.Some? :: al[a].lead.value
  }

  function ListingsOfHosts(hosts: set<HostId>): set<string> {
    set a | a in hosts && DigitsOf(a, "manual:listing-").Some? :: DigitsOf(a, "manual:listing-").value
  }

  function ThreadsOfHosts(hosts: set<HostId>): set<string> {
    set a, t | a in hosts && t in ThreadIdsOfHost(a) :: t
  }

  function ListingsOfLeads(leads: map<LeadId, Lead>, ids: set<LeadId>): set<string>
    requires ids <= leads.Keys
  {
    set k, l | k in ids && l in CollectListingIds(leads[k]) :: l
  }

  function ThreadsOfLeads(leads: map<LeadId, Lead>, ids: set<LeadId>): set<string>
    requires ids <= leads.Keys
  {
    set k, t | k in ids && t in CollectThreadIds(leads[k]) :: t
  }

  function HostsOfLeads(leads: map<LeadId, Lead>, ids: set<LeadId>): set<HostId>
    requires ids <= leads.Keys
  {
    set k | k in ids :: leads[k].host
  }

  /** Alias rows one hop from the seeds: the rows the cluster reads lead ids from. */
  function RowsRead(al: map<HostId, Alias>, l: Lead): set<HostId> {
    RowsTouching(al, Hop(al, Seeds(l)))
  }

  function PointedLeads(al: map<HostId, Alias>, id: LeadId, l: Lead): set<LeadId> {
    {id} + LeadsOfRows(al, RowsRead(al, l))
  }

  function KnownListings(al: map<HostId, Alias>, l: Lead): set<string> {
    CollectListingIds(l) + ListingsOfHosts(RowsRead(al, l))
  }

  function KnownThreads(al: map<HostId, Alias>, l: Lead): set<string> {
    CollectThreadIds(l) + ThreadsOfHosts(RowsRead(al, l))
  }

  function ClusterOf(db: Db, id: LeadId, l: Lead): Cluster {
    var related := RelatedLeads(db.leads, AliasReach(db.aliases, l), PointedLeads(db.aliases, id, l),
                                KnownListings(db.aliases, l), KnownThreads(db.aliases, l));
    var listings := ListingsOfLeads(db.leads, related);
    var threads := ThreadsOfLeads(db.leads, related);
    Cluster(PointedLeads(db.aliases, id, l) + related,
            AliasReach(db.aliases, l) + HostsOfLeads(db.leads, related) + SyntheticHosts(listings, threads),
            KnownListings(db.aliases, l) + listings,
            KnownThreads(db.aliases, l) + threads)
  }

  // ---------- the alias graph ----------

  /** An undirected edge of the alias graph. */
  ghost predicate Linked(al: map<HostId, Alias>, x: HostId, y: HostId) {
    (x in al && al[x].canonical == y) || (y in al && al[y].canonical == x)
  }

  ghost predicate IsWalk(al: map<HostId, Alias>, p: seq<HostId>) {
    |p| > 0 && forall i :: 0 <= i < |p| - 1 ==> Linked(al, p[i], p[i + 1])
  }

  /** `p` leads from an id of `s` to `h` in at most `n` undirected hops. */
  ghost predicate WalkFrom(al: map<HostId, Alias>, s: set<HostId>, h: HostId, n: nat, p: seq<HostId>) {
    IsWalk(al, p) && p[0] in s && p[|p| - 1] == h && |p| <= n + 1
  }

  lemma HopIsOneLink(al: map<HostId, Alias>, s: set<HostId>, y: HostId)
    ensures y in Hop(al, s) <==> y in s || exists x :: x in s && Linked(al, x, y)
  {
    if y in RowsTouching(al, s) && y !in s {
      assert Linked(al, al[y].canonical, y);
    }
    if y in Canonicals(al, RowsTouching(al, s)) && y !in s {
      var a :| a in RowsTouching(al, s) && al[a].canonical == y;
      assert Linked(al, a, y);
    }
    forall x | x in s && Linked(al, x, y)
      ensures y in Hop(al, s)
    {
      if x in al && al[x].canonical == y {
        assert x in RowsTouching(al, s);
      } else {
        assert y in RowsTouching(al, s);
      }
    }
  }

  lemma HopUnion(al: map<HostId, Alias>, s: set<HostId>, t: set<HostId>)
    ensures Hop(al, s + t) == Hop(al, s) + Hop(al, t)
  {
    forall y
      ensures y in Hop(al, s + t) <==> y in Hop(al, s) + Hop(al, t)
    {
      HopIsOneLink(al, s, y);
      HopIsOneLink(al, t, y);
      HopIsOneLink(al, s + t, y);
    }
  }

  /** Before related leads are added, the cluster's host ids are exactly the ids at graph distance
      at most two from the lead's own host, listing and thread ids. */
  lemma ReachIsDistanceTwo(al: map<HostId, Alias>, l: Lead, h: HostId)
    ensures h in AliasReach(al, l) <==> exists p :: WalkFrom(al, Seeds(l), h, 2, p)
  {
    var s := Seeds(l);
    if h in AliasReach(al, l) {
      HopIsOneLink(al, Hop(al, s), h);
      var x :| x in Hop(al, s) && (x == h || Linked(al, x, h));
      HopIsOneLink(al, s, x);
      var w :| w in s && (w == x || Linked(al, w, x));
      var p := (if w == x then [w] else [w, x]) + (if x == h then [] else [h]);
      assert WalkFrom(al, s, h, 2, p);
    }
    forall p | WalkFrom(al, s, h, 2, p)
      ensures h in AliasReach(al, l)
    {
      HopIsOneLink(al, s, if |p| > 1 then p[1] else p[0]);
      HopIsOneLink(al, Hop(al, s), h);
      if |p| == 2 {
        assert Linked(al, p[0], p[1]);
      } else if |p| == 3 {
        assert Linked(al, p[0], p[1]) && Linked(al, p[1], p[2]);
      }
    }
  }

  /** No canonical id is itself an alias: every component of the graph is a star. */
  ghost predicate Starred(al: map<HostId, Alias>) {
    forall a :: a in al ==> al[a].canonical !in al
  }

  /** In a star-shaped alias table two hops are the whole component: no walk of any length leaves them. */
  lemma StarsAreCovered(al: map<HostId, Alias>, l: Lead, p: seq<HostId>)
    requires Starred(al)
    requires IsWalk(al, p) && p[0] in Seeds(l)
    ensures p[|p| - 1] in AliasReach(al, l)
    decreases |p|
  {
    var h := p[|p| - 1];
    if |p| > 1 {
      var q := p[..|p| - 1];
      assert forall i :: 0 <= i < |q| - 1 ==> Linked(al, q[i], q[i + 1]) by {
        forall i | 0 <= i < |q| - 1 ensures Linked(al, q[i], q[i + 1]) {
          assert Linked(al, p[i], p[i + 1]);
        }
      }
      StarsAreCovered(al, l, q);
      assert Linked(al, p[|p| - 2], h);
      ReachIsClosedInStars(al, Seeds(l), q[|q| - 1], h);
    } else {
      HopIsOneLink(al, Seeds(l), h);
      HopIsOneLink(al, Hop(al, Seeds(l)), h);
    }
  }

  lemma ReachIsClosedInStars(al: map<HostId, Alias>, s: set<HostId>, x: HostId, y: HostId)
    requires Starred(al)
    requires x in Hop(al, Hop(al, s)) && Linked(al, x, y)
    ensures y in Hop(al, Hop(al, s))
  {
    HopIsOneLink(al, Hop(al, s), x);
    HopIsOneLink(al, Hop(al, s), y);
    if x !in Hop(al, s) {
      var w :| w in Hop(al, s) && Linked(al, w, x);
      HopIsOneLink(al, s, w);
      if w !in s {
        var v :| v in s && Linked(al, v, w);
        HopIsOneLink(al, s, y);
      } else {
        HopIsOneLink(al, s, x);
      }
    }
  }

  /** The chain of canonical ids from `h`: what `h` stands for after `n` re-canonicalisations. */
  ghost function Root(al: map<HostId, Alias>, h: HostId, n: nat): HostId
    decreases n
  {
    if n == 0 || h !in al then h else Root(al, al[h].canonical, n - 1)
  }

  lemma HopFollows(al: map<HostId, Alias>, s: set<HostId>, x: HostId)
    requires x in s
    ensures x in Hop(al, s)
    ensures x in al ==> al[x].canonical in Hop(al, s)
  {
    if x in al {
      assert Linked(al, x, al[x].canonical);
      HopIsOneLink(al, s, al[x].canonical);
    }
  }

  lemma RootInReach(al: map<HostId, Alias>, l: Lead, n: nat)
    requires n <= 2
    ensures Root(al, l.host, n) in AliasReach(al, l)
  {
    var h0 := l.host;
    HopFollows(al, Seeds(l), h0);
    HopFollows(al, Hop(al, Seeds(l)), h0);
    if n > 0 && h0 in al {
      var h1 := al[h0].canonical;
      HopFollows(al, Hop(al, Seeds(l)), h1);
      assert Root(al, h0, n) == Root(al, h1, n - 1);
      if n == 2 && h1 in al {
        assert Root(al, h1, 1) == Root(al, al[h1].canonical, 0);
      }
    }
  }

  /** A lead owning the end of an alias chain of length at most two from the seed's own host is in the cluster. */
  lemma RootOwnerInCluster(db: Db, id: LeadId, l: Lead, n: nat, owner: LeadId)
    requires n <= 2
    requires owner in db.leads && db.leads[owner].host == Root(db.aliases, l.host, n)
    ensures owner in ClusterOf(db, id, l).leadIds
    ensures db.leads[owner].host in ClusterOf(db, id, l).hostIds
  {
    RootInReach(db.aliases, l, n);
  }

  /** A row one hop from the seeds brings the lead it names into the cluster. */
  lemma PointedLeadInCluster(db: Db, id: LeadId, l: Lead, a: HostId)
    requires a in db.aliases && db.aliases[a].lead.Some?
    requires a in Hop(db.aliases, Seeds(l)) || db.aliases[a].canonical in Hop(db.aliases, Seeds(l))
    ensures db.aliases[a].lead.value in ClusterOf(db, id, l).leadIds
  {
    assert a in RowsRead(db.aliases, l);
  }

  // ---------- lookup by listing ----------

  /** The host ids a listing stands for: its own, the one it is an alias of, and the neighbours of that one. */
  function HostsOfListing(al: map<HostId, Alias>, listing: string): set<HostId> {
    var own := ListingHostId(listing);
    {own} + if own in al then Hop(al, {al[own].canonical}) else {}
  }

  function LeadsByListing(db: Db, listing: string): set<LeadId> {
    var own := ListingHostId(listing);
    set k | k in db.leads && (
      || db.leads[k].host in HostsOfListing(db.aliases, listing)
      || Contains(db.leads[k].url, "/rooms/" + listing)
      || (own in db.aliases && db.aliases[own].lead == Some(k)))
  }

  /** Whatever a lookup by one of its listings finds, the lead's cluster contains. */
  lemma ListingLookupInCluster(db: Db, id: LeadId, l: Lead, listing: string)
    requires listing in CollectListingIds(l)
    ensures LeadsByListing(db, listing) <= ClusterOf(db, id, l).leadIds
  {
    var own := ListingHostId(listing);
    ListingIsSeed(l, listing);
    if own in db.aliases {
      assert own in RowsTouching(db.aliases, Seeds(l)) && db.aliases[own].canonical in Hop(db.aliases, Seeds(l));
      HopGrows(db.aliases, {db.aliases[own].canonical}, Hop(db.aliases, Seeds(l)));
      assert own in RowsRead(db.aliases, l);
    }
    forall k | k in LeadsByListing(db, listing)
      ensures k in ClusterOf(db, id, l).leadIds
    {
      if Contains(db.leads[k].url, "/rooms/" + listing) {
        assert UrlNamesListing(db.leads[k].url, KnownListings(db.aliases, l));
      }
    }
  }

  lemma ListingIsSeed(l: Lead, listing: string)
    requires listing in CollectListingIds(l)
    ensures ListingHostId(listing) in Seeds(l)
  {
  }

  lemma HopGrows(al: map<HostId, Alias>, s: set<HostId>, t: set<HostId>)
    requires s <= t
    ensures Hop(al, s) <= Hop(al, t)
  {
    assert RowsTouching(al, s) <= RowsTouching(al, t);
  }
}
