/** Merging a duplicate lead into the canonical one: when the transaction commits, and what a commit keeps. */
module Merge {
  import opened Records
  import opened Identity
  import opened Gate

  function Or<T>(a: Option<T>, b: Option<T>): Option<T> { if a.Some? then a else b }

  function Max(a: int, b: int): int { if a >= b then a else b }

  function MergedRow(c: Lead, d: Lead): Lead {
    c.(status := PickAdvanced(c.status, d.status),
       thread := Or(c.thread, d.thread),
       total := Max(c.total, d.total),
       superhost := c.superhost || d.superhost,
       market := Or(c.market, d.market),
       lastContacted := Or(c.lastContacted, d.lastContacted),
       company := Or(c.company, d.company),
       url := if c.url != "" then c.url else d.url,
       listingName := Or(c.listingName, d.listingName))
  }

  function Relabel(ms: seq<Message>, d: LeadId, c: LeadId): seq<Message> {
    seq(|ms|, i requires 0 <= i < |ms| => if ms[i].lead == d then ms[i].(lead := c) else ms[i])
  }

  /** The duplicate still holds its thread when the canonical row takes it over, so a moving thread
      breaks the unique index; a moving ledger row must find its new host id free. */
  predicate MergeCommits(db: Db, c: LeadId, d: LeadId)
    requires c in db.leads && d in db.leads
  {
    && !(db.leads[c].thread.None? && db.leads[d].thread.Some?)
    && !(d in db.contacts && c !in db.contacts && !ContactHostFree(db.contacts, d, db.leads[c].host))
  }

  function MergedContacts(db: Db, c: LeadId, d: LeadId): map<LeadId, Contact>
    requires c in db.leads
  {
    if d in db.contacts && c !in db.contacts
    then db.contacts[c := db.contacts[d].(host := db.leads[c].host)] - {d}
    else db.contacts - {d}
  }

  function MergedAliases(db: Db, c: LeadId, d: LeadId): map<HostId, Alias>
    requires c in db.leads && d in db.leads
  {
    if db.leads[d].host != db.leads[c].host
    then db.aliases[db.leads[d].host := Alias(db.leads[c].host, Some(c))]
    else db.aliases
  }

  /** The tables after a committed merge of `d` into `c`. */
  function Merged(db: Db, c: LeadId, d: LeadId): Db
    requires c in db.leads && d in db.leads
  {
    Db(db.leads[c := MergedRow(db.leads[c], db.leads[d])] - {d},
       MergedAliases(db, c, d),
       MergedContacts(db, c, d),
       Relabel(db.messages, d, c))
  }

  // ---------- conservation ----------

  /** What the messages of the given leads say, in order, without the lead they hang on. */
  ghost function Bodies(ms: seq<Message>, ids: set<LeadId>): seq<(Direction, string, Option<string>)> {
    if ms == [] then []
    else
      var m := ms[|ms| - 1];
      Bodies(ms[..|ms| - 1], ids) + if m.lead in ids then [(m.direction, m.content, m.intent)] else []
  }

  lemma {:induction false} RelabelKeepsBodies(ms: seq<Message>, d: LeadId, c: LeadId)
    requires c != d
    ensures Bodies(Relabel(ms, d, c), {c}) == Bodies(ms, {c, d})
    ensures Bodies(Relabel(ms, d, c), {d}) == []
    ensures forall k :: k != c && k != d ==> Bodies(Relabel(ms, d, c), {k}) == Bodies(ms, {k})
  {
    if ms != [] {
      var front := ms[..|ms| - 1];
      RelabelKeepsBodies(front, d, c);
      var r := Relabel(ms, d, c);
      assert r[..|r| - 1] == Relabel(front, d, c);
    }
  }

  lemma {:induction false} BodiesOfTwo(ms: seq<Message>, c: LeadId, d: LeadId)
    requires c != d
    ensures multiset(Bodies(ms, {c, d})) == multiset(Bodies(ms, {c})) + multiset(Bodies(ms, {d}))
  {
    if ms != [] {
      BodiesOfTwo(ms[..|ms| - 1], c, d);
    }
  }

  lemma RelabelKeepsOutbound(ms: seq<Message>, d: LeadId, c: LeadId, k: LeadId)
    requires c != d
    ensures HasOutbound(Relabel(ms, d, c), k)
       <==> if k == d then false else if k == c then HasOutbound(ms, c) || HasOutbound(ms, d) else HasOutbound(ms, k)
  {
    var r := Relabel(ms, d, c);
    forall i | 0 <= i < |ms| && ms[i].direction.Outbound?
      ensures ms[i].lead == k && k != d ==> HasOutbound(r, k)
      ensures ms[i].lead == d && k == c ==> HasOutbound(r, k)
    {
      assert r[i].direction.Outbound?;
    }
    forall i | 0 <= i < |r| && r[i].lead == k && r[i].direction.Outbound?
      ensures k != d && (if k == c then HasOutbound(ms, c) || HasOutbound(ms, d) else HasOutbound(ms, k))
    {
      assert ms[i].direction.Outbound?;
    }
  }

  /** A committed merge keeps every index and key, moves the duplicate's messages whole and in order, and the
      survivor is contacted iff either lead was, at the higher of the two ranks. Other leads are untouched. */
  lemma MergeConserves(db: Db, c: LeadId, d: LeadId)
    requires Sound(db) && c in db.leads && d in db.leads && c != d && MergeCommits(db, c, d)
    ensures var n := Merged(db, c, d);
      && Sound(n)
      && n.leads.Keys == db.leads.Keys - {d}
      && Bodies(n.messages, {c}) == Bodies(db.messages, {c, d})
      && multiset(Bodies(n.messages, {c})) == multiset(Bodies(db.messages, {c})) + multiset(Bodies(db.messages, {d}))
      && |n.messages| == |db.messages|
      && (Contacted(n, c) <==> Contacted(db, c) || Contacted(db, d))
      && Rank(n.leads[c].status) == Max(Rank(db.leads[c].status), Rank(db.leads[d].status))
      && (c in n.contacts <==> c in db.contacts || d in db.contacts)
    ensures forall k :: k in db.leads && k != c && k != d ==>
      && Merged(db, c, d).leads[k] == db.leads[k]
      && (Contacted(Merged(db, c, d), k) <==> Contacted(db, k))
      && Bodies(Merged(db, c, d).messages, {k}) == Bodies(db.messages, {k})
  {
    MergeKeepsIndices(db, c, d);
    RelabelKeepsBodies(db.messages, d, c);
    BodiesOfTwo(db.messages, c, d);
    MergeKeepsContact(db, c, d);
    MergeKeepsRank(db.leads[c], db.leads[d]);
  }

  /** What the survivor takes over from the duplicate, column by column: the larger property count, superhost if either
      was, the further status with its own kept at equal rank, and whatever it lacks itself. */
  predicate Inherits(c: Lead, d: Lead, s: Lead) {
    && s.total >= c.total && s.total >= d.total && (s.total == c.total || s.total == d.total)
    && (s.superhost <==> c.superhost || d.superhost)
    && (s.status == c.status || s.status == d.status)
    && (Rank(s.status) == Rank(c.status) ==> s.status == c.status)
    && Rank(s.status) >= Rank(c.status) && Rank(s.status) >= Rank(d.status)
    && (c.thread.Some? ==> s.thread == c.thread) && (c.thread.None? ==> s.thread == d.thread)
    && (c.market.Some? ==> s.market == c.market) && (c.market.None? ==> s.market == d.market)
    && (c.company.Some? ==> s.company == c.company) && (c.company.None? ==> s.company == d.company)
    && (c.listingName.Some? ==> s.listingName == c.listingName)
    && (c.listingName.None? ==> s.listingName == d.listingName)
    && (c.lastContacted.Some? ==> s.lastContacted == c.lastContacted)
    && (c.lastContacted.None? ==> s.lastContacted == d.lastContacted)
    && (c.url != "" ==> s.url == c.url) && (c.url == "" ==> s.url == d.url)
    && s.host == c.host && s.icpSkip == c.icpSkip && s.nextFollowUp == c.nextFollowUp && s.createdAt == c.createdAt
  }

  /** The survivor's ledger row: its own if it has one, else the duplicate's under its own host id. */
  ghost predicate InheritsLedger(c: LeadId, d: LeadId, host: HostId, before: map<LeadId, Contact>,
                                 after: map<LeadId, Contact>) {
    && d !in after && (c in after <==> c in before || d in before)
    && (c in before ==> c in after && after[c] == before[c])
    && (c !in before && d in before ==>
      && c in after && after[c].host == host && after[c].firstAt == before[d].firstAt
      && after[c].account == before[d].account && after[c].source == before[d].source)
    && forall k :: k != c && k != d ==> (k in after <==> k in before) && (k in before ==> after[k] == before[k])
  }

  /** Every column of the survivor, its ledger row, and the alias row under which the duplicate is remembered. */
  lemma SurvivorInherits(db: Db, c: LeadId, d: LeadId)
    requires c in db.leads && d in db.leads && c != d
    ensures var n := Merged(db, c, d);
      && d !in n.leads && c in n.leads && Inherits(db.leads[c], db.leads[d], n.leads[c])
      && InheritsLedger(c, d, db.leads[c].host, db.contacts, n.contacts)
      && (db.leads[d].host != db.leads[c].host ==>
        db.leads[d].host in n.aliases && n.aliases[db.leads[d].host] == Alias(db.leads[c].host, Some(c)))
      && forall a :: a != db.leads[d].host ==>
        (a in n.aliases <==> a in db.aliases) && (a in n.aliases ==> n.aliases[a] == db.aliases[a])
  {
  }

  /** The pipeline's order: discovery, the templates, the reply, the person, and at the top both ends. */
  lemma RanksAscend()
    ensures Rank(LeadDiscovered) < Rank(InitialMsgSent) < Rank(FollowUp1Sent) < Rank(FollowUp2Sent)
      < Rank(FollowUp3Sent) < Rank(RepliedInProgress) < Rank(HumanTakeover) < Rank(ClosedWon)
    ensures Rank(ClosedWon) == Rank(ClosedLost)
  {
  }

  lemma MergeKeepsRank(c: Lead, d: Lead)
    ensures Rank(MergedRow(c, d).status) == Max(Rank(c.status), Rank(d.status))
  {
  }

  /** The survivor is contacted iff one of the two was, the others iff they were. */
  lemma MergeKeepsContact(db: Db, c: LeadId, d: LeadId)
    requires c in db.leads && d in db.leads && c != d && MergeCommits(db, c, d)
    ensures var n := Merged(db, c, d);
      && n.leads.Keys == db.leads.Keys - {d}
      && (Contacted(n, c) <==> Contacted(db, c) || Contacted(db, d))
      && (c in n.contacts <==> c in db.contacts || d in db.contacts)
      && forall k :: k in db.leads && k != c && k != d ==>
        n.leads[k] == db.leads[k] && (Contacted(n, k) <==> Contacted(db, k))
  {
    forall k
      ensures HasOutbound(Relabel(db.messages, d, c), k)
         <==> if k == d then false
              else if k == c then HasOutbound(db.messages, c) || HasOutbound(db.messages, d)
              else HasOutbound(db.messages, k)
    {
      RelabelKeepsOutbound(db.messages, d, c, k);
    }
  }

  lemma MergeKeepsIndices(db: Db, c: LeadId, d: LeadId)
    requires Sound(db) && c in db.leads && d in db.leads && c != d && MergeCommits(db, c, d)
    ensures Sound(Merged(db, c, d))
  {
    var n := Merged(db, c, d);
    forall j, k | j in n.leads && k in n.leads && n.leads[j].host == n.leads[k].host
      ensures j == k
    {
      assert db.leads[j].host == db.leads[k].host;
    }
    forall j, k | j in n.leads && k in n.leads && n.leads[j].thread.Some? && n.leads[j].thread == n.leads[k].thread
      ensures j == k
    {
      assert db.leads[j].thread == n.leads[j].thread && db.leads[k].thread == n.leads[k].thread;
    }
  }
}
