/** What the gate remembers of a host once its lead has been merged away, over logs of writes. */
module Trails {
  import opened Records
  import opened Identity
  import opened Gate
  import opened Merge
  import opened Recanonical
  import opened Writes

  /** What a merge of `d` into `c` does to the leads and to the contact with them. */
  ghost predicate MergeDoes(m: Db, a: Db, c: LeadId, d: LeadId) {
    && c in m.leads && d in m.leads && Consistent(a) && a.leads.Keys == m.leads.Keys - {d} && c in a.leads
    && a.leads[c] == MergedRow(m.leads[c], m.leads[d])
    && (Contacted(a, c) <==> Contacted(m, c) || Contacted(m, d))
    && forall k :: k in m.leads && k != c && k != d ==>
         a.leads[k] == m.leads[k] && (Contacted(a, k) <==> Contacted(m, k))
  }

  lemma MergeEffects(m: Db, c: LeadId, d: LeadId)
    requires Consistent(m) && Legal(m, Absorb(c, d))
    ensures MergeDoes(m, Apply(m, Absorb(c, d)), c, d)
  {
    WriteKeepsIndices(m, Absorb(c, d));
    MergeConserves(m, c, d);
  }

  // ---------- one host under ever new ids ----------

  /** A lead of the chain and the row it was created with. */
  datatype Holder = Holder(id: LeadId, row: Lead)

  /** What harvests write that find one host under ever new ids: each creates a lead and merges the one before into
      it. */
  function Succession(chain: seq<Holder>): seq<Write> {
    if |chain| < 2 then []
    else
      var n := |chain| - 1;
      Succession(chain[..n]) + TakeOver(chain[n], chain[n - 1].id)
  }

  function TakeOver(h: Holder, d: LeadId): seq<Write> { [Create(h.id, h.row), Absorb(h.id, d)] }

  function HostsOf(chain: seq<Holder>): seq<HostId> {
    seq(|chain|, i requires 0 <= i < |chain| => chain[i].row.host)
  }

  /** Different leads under different numeric host ids. */
  ghost predicate IsChain(chain: seq<Holder>) {
    && |chain| >= 1
    && (forall i :: 0 <= i < |chain| ==> IsNumericHostId(chain[i].row.host))
    && (forall i, j :: 0 <= i < j < |chain| ==> chain[i].id != chain[j].id && chain[i].row.host != chain[j].row.host)
  }

  /** The chain begins with a contacted lead of the store that has no thread. */
  ghost predicate Begins(db: Db, chain: seq<Holder>) {
    |chain| >= 1 && Holds(db, chain[0]) && db.leads[chain[0].id] == chain[0].row
  }

  /** The contact is with this lead now. */
  ghost predicate Holds(m: Db, h: Holder) {
    && Consistent(m) && h.id in m.leads && m.leads[h.id].host == h.row.host && m.leads[h.id].thread.None?
    && (h.row.url != "" ==> m.leads[h.id].url == h.row.url) && Contacted(m, h.id)
  }

  /** The other leads are what they were, and none of them is an earlier lead of the chain or has its host id. */
  ghost predicate OthersLeft(db: Db, m: Db, chain: seq<Holder>, n: nat)
    requires n < |chain|
  {
    forall k :: k in m.leads && k != chain[n].id ==>
      && k in db.leads && m.leads[k] == db.leads[k] && (Contacted(m, k) <==> Contacted(db, k))
      && NotOf(chain, n, k, m.leads[k].host)
  }

  predicate NotOf(chain: seq<Holder>, n: nat, k: LeadId, host: HostId)
    requires n < |chain|
  {
    forall i :: 0 <= i <= n ==> k != chain[i].id && host != chain[i].row.host
  }

  /** One alias row for each merge, next to the rows that were there. */
  ghost predicate RowsLeft(al: map<HostId, Alias>, hs: seq<HostId>, chain: seq<Holder>, n: nat, apart: set<HostId>) {
    && n < |hs| == |chain|
    && (forall i :: 0 <= i < n ==> hs[i] in al && al[hs[i]] == Alias(hs[i + 1], Some(chain[i + 1].id)))
    && (forall a :: a in al ==> a in hs[..n] || RowIsApart(al, a, hs, apart))
  }

  /** What the first `n` merges leave. */
  ghost predicate ChainLeft(db: Db, m: Db, chain: seq<Holder>, n: nat, apart: set<HostId>) {
    n < |chain| && Holds(m, chain[n]) && OthersLeft(db, m, chain, n) &&
        RowsLeft(m.aliases, HostsOf(chain), chain, n, apart)
  }

  lemma CreateEffects(m: Db, h: Holder)
    requires Consistent(m) && Legal(m, Create(h.id, h.row))
    ensures var a := Apply(m, Create(h.id, h.row));
      && Consistent(a) && a == Created(m, h.id, h.row) && !Contacted(a, h.id)
      && forall k :: k in m.leads ==> (Contacted(a, k) <==> Contacted(m, k))
  {
    CreationKeepsIndices(m, h.id, h.row);
  }

  lemma HoldsOneMore(m: Db, a: Db, was: Holder, now: Holder)
    requires Holds(m, was) && Legal(m, Create(now.id, now.row))
    requires MergeDoes(Created(m, now.id, now.row), a, now.id, was.id)
    ensures Holds(a, now)
  {
    CreateEffects(m, now);
  }

  lemma OthersOneMore(db: Db, m: Db, a: Db, chain: seq<Holder>, n: nat)
    requires n + 1 < |chain| && Consistent(m) && OthersLeft(db, m, chain, n)
    requires Legal(m, Create(chain[n + 1].id, chain[n + 1].row))
    requires MergeDoes(Created(m, chain[n + 1].id, chain[n + 1].row), a, chain[n + 1].id, chain[n].id)
    ensures OthersLeft(db, a, chain, n + 1)
  {
    var h := chain[n + 1];
    CreateEffects(m, h);
    forall k | k in a.leads && k != h.id
      ensures k in db.leads && a.leads[k] == db.leads[k] && (Contacted(a, k) <==> Contacted(db, k))
      ensures NotOf(chain, n + 1, k, a.leads[k].host)
    {
      assert k in m.leads && k != chain[n].id && a.leads[k] == m.leads[k];
      NotOfNext(chain, n, k, m.leads[k].host);
    }
  }

  lemma NotOfNext(chain: seq<Holder>, n: nat, k: LeadId, host: HostId)
    requires n + 1 < |chain| && NotOf(chain, n, k, host) && k != chain[n + 1].id && host != chain[n + 1].row.host
    ensures NotOf(chain, n + 1, k, host)
  {
  }

  lemma RowsOneMore(m: Db, hs: seq<HostId>, chain: seq<Holder>, n: nat, apart: set<HostId>)
    requires RowsLeft(m.aliases, hs, chain, n, apart) && n + 1 < |hs|
    requires forall i, j :: 0 <= i < j < |hs| ==> hs[i] != hs[j]
    requires var c, d := chain[n + 1].id, chain[n].id;
      c in m.leads && d in m.leads && m.leads[d].host == hs[n] && m.leads[c].host == hs[n + 1]
    ensures RowsLeft(MergedAliases(m, chain[n + 1].id, chain[n].id), hs, chain, n + 1, apart)
  {
    var al := MergedAliases(m, chain[n + 1].id, chain[n].id);
    assert al == m.aliases[hs[n] := Alias(hs[n + 1], Some(chain[n + 1].id))];
    assert hs[..n + 1] == hs[..n] + [hs[n]];
  }

  lemma RunTwo(db: Db, v: Write, w: Write)
    ensures Run(db, [v, w]) == if Legal(db, v) then Step(Apply(db, v), w) else None
  {
    RunOne(db, v);
    RunSnoc(db, [v], w);
    assert [v] + [w] == [v, w];
  }

  lemma ChainOneMore(db: Db, before: Db, m: Db, chain: seq<Holder>, n: nat, apart: set<HostId>)
    requires IsChain(chain) && n + 1 < |chain| && ChainLeft(db, before, chain, n, apart)
    requires Run(before, TakeOver(chain[n + 1], chain[n].id)) == Some(m)
    ensures ChainLeft(db, m, chain, n + 1, apart)
  {
    var d, h := chain[n].id, chain[n + 1];
    TakeOverEffects(before, m, h, d);
    HoldsOneMore(before, m, chain[n], h);
    OthersOneMore(db, before, m, chain, n);
    RowsOneMore(Created(before, h.id, h.row), HostsOf(chain), chain, n, apart);
  }

  lemma TakeOverEffects(before: Db, m: Db, h: Holder, d: LeadId)
    requires Consistent(before) && Run(before, TakeOver(h, d)) == Some(m)
    ensures Legal(before, Create(h.id, h.row)) && d in before.leads
    ensures var mid := Created(before, h.id, h.row);
      MergeDoes(mid, m, h.id, d) && m.aliases == MergedAliases(mid, h.id, d)
  {
    RunTwo(before, Create(h.id, h.row), Absorb(h.id, d));
    CreateEffects(before, h);
    MergeEffects(Created(before, h.id, h.row), h.id, d);
  }

  lemma ChainBegins(db: Db, chain: seq<Holder>, apart: set<HostId>)
    requires IsChain(chain) && Begins(db, chain)
    requires forall a :: a in db.aliases ==> RowIsApart(db.aliases, a, HostsOf(chain), apart)
    ensures ChainLeft(db, db, chain, 0, apart)
  {
  }

  /** The harvests, all their merges committed, leave one row each, and the contact with the last lead. */
  lemma {:induction false} SuccessionLeavesTrail(db: Db, chain: seq<Holder>, n: nat, apart: set<HostId>, m: Db)
    requires IsChain(chain) && Begins(db, chain) && n < |chain|
    requires forall a :: a in db.aliases ==> RowIsApart(db.aliases, a, HostsOf(chain), apart)
    requires Run(db, Succession(chain[..n + 1])) == Some(m)
    ensures ChainLeft(db, m, chain, n, apart)
  {
    if n == 0 {
      ChainBegins(db, chain, apart);
    } else {
      assert chain[..n + 1][..n] == chain[..n];
      var front := Succession(chain[..n]);
      RunConcat(db, front, TakeOver(chain[n], chain[n - 1].id));
      var before := Run(db, front).value;
      SuccessionLeavesTrail(db, chain, n - 1, apart, before);
      ChainOneMore(db, before, m, chain, n - 1, apart);
    }
  }

  // ---------- the trail it leaves ----------

  lemma NeighboursOnTrail(al: map<HostId, Alias>, hs: seq<HostId>, chain: seq<Holder>, n: nat, apart: set<HostId>)
    requires RowsLeft(al, hs, chain, n, apart) && n == |hs| - 1
    ensures forall i :: 0 <= i < |hs| - 1 ==> hs[i] in al && al[hs[i]].canonical == hs[i + 1]
  {
  }

  lemma OtherRowsApart(al: map<HostId, Alias>, hs: seq<HostId>, chain: seq<Holder>, n: nat, apart: set<HostId>)
    requires RowsLeft(al, hs, chain, n, apart) && n == |hs| - 1
    ensures forall a :: a in al ==> a in hs[..|hs| - 1] || RowIsApart(al, a, hs, apart)
  {
  }

  lemma RowsAreTrail(al: map<HostId, Alias>, hs: seq<HostId>, chain: seq<Holder>, n: nat, apart: set<HostId>)
    requires RowsLeft(al, hs, chain, n, apart) && n == |hs| - 1
    requires forall i, j :: 0 <= i < j < |hs| ==> hs[i] != hs[j]
    ensures IsTrail(al, hs, apart)
  {
    NeighboursOnTrail(al, hs, chain, n, apart);
    OtherRowsApart(al, hs, chain, n, apart);
  }

  lemma ChainIsTrail(db: Db, m: Db, chain: seq<Holder>, n: nat, apart: set<HostId>)
    requires IsChain(chain) && n == |chain| - 1 && ChainLeft(db, m, chain, n, apart)
    ensures IsTrail(m.aliases, HostsOf(chain), apart)
  {
    RowsAreTrail(m.aliases, HostsOf(chain), chain, n, apart);
  }

  lemma RowsNameSurvivors(db: Db, m: Db, chain: seq<Holder>, n: nat, apart: set<HostId>, f: LeadId, blank: Lead)
    requires ChainLeft(db, m, chain, n, apart) && n == |chain| - 1 >= 1 && IsChain(chain)
    requires Legal(m, Create(f, blank))
    ensures NamesSurvivors(Created(m, f, blank), HostsOf(chain), chain[n].id)
  {
    var hs := HostsOf(chain);
    CreateEffects(m, Holder(f, blank));
    forall i | 0 <= i < n
      ensures hs[i] in m.aliases && m.aliases[hs[i]] == Alias(hs[i + 1], Some(chain[i + 1].id))
    {
    }
    forall i | 0 <= i < n - 1
      ensures !NamesContacted(Created(m, f, blank), m.aliases[hs[i]])
    {
      assert m.aliases[hs[i]].lead == Some(chain[i + 1].id);
      assert chain[i + 1].id != chain[n].id;
    }
  }

  /** Whoever is contacted at the end has a numeric host id and does not name the listing of the fresh lead. */
  ghost predicate ContactIsNumeric(m: Db, listings: set<string>) {
    forall k :: k in m.leads && Contacted(m, k) ==>
      IsNumericHostId(m.leads[k].host) && !UrlNamesListing(m.leads[k].url, listings)
  }

  lemma ContactStaysOff(db: Db, m: Db, chain: seq<Holder>, n: nat, apart: set<HostId>, f: LeadId, blank: Lead)
    requires ChainLeft(db, m, chain, n, apart) && n == |chain| - 1 >= 1 && IsChain(chain)
    requires Legal(m, Create(f, blank)) && ContactIsNumeric(m, CollectListingIds(blank))
    ensures ContactOffTrail(Created(m, f, blank), HostsOf(chain), f)
  {
    CreateEffects(m, Holder(f, blank));
    forall k | k in m.leads && Contacted(m, k)
      ensures m.leads[k].host !in HostsOf(chain)[..n]
    {
      assert k == chain[n].id || NotOf(chain, n, k, m.leads[k].host);
    }
  }

  lemma HeadOfTrail(rules: Rules, m: Db, h: Holder, f: LeadId, blank: Lead)
    requires Holds(m, h) && Legal(m, Create(f, blank)) && rules.icp(blank)
    ensures HeadAndSurvivor(rules, Created(m, f, blank), blank.host, f, h.row.host, h.id)
  {
    CreateEffects(m, Holder(f, blank));
  }

  /** The chain of merges, with a fresh lead under the first host id, is a trail. */
  lemma TrailFrom(rules: Rules, db: Db, m: Db, chain: seq<Holder>, n: nat, f: LeadId, blank: Lead)
    requires IsChain(chain) && n == |chain| - 1 >= 1 && ChainLeft(db, m, chain, n, Seeds(blank))
    requires Legal(m, Create(f, blank)) && blank.host == chain[0].row.host && rules.icp(blank)
    requires ContactIsNumeric(m, CollectListingIds(blank))
    ensures OnTrail(rules, Created(m, f, blank), f, n)
  {
    var hs, r := HostsOf(chain), chain[n].id;
    HeadOfTrail(rules, m, chain[n], f, blank);
    ChainIsTrail(db, m, chain, n, Seeds(blank));
    RowsNameSurvivors(db, m, chain, n, Seeds(blank), f, blank);
    ContactStaysOff(db, m, chain, n, Seeds(blank), f, blank);
    WholeTrail(rules, Created(m, f, blank), hs, f, r, n);
  }

  lemma WholeTrail(rules: Rules, db: Db, hs: seq<HostId>, f: LeadId, r: LeadId, n: nat)
    requires |hs| == n + 1 >= 2 && (forall i :: 0 <= i < |hs| ==> IsNumericHostId(hs[i]))
    requires HeadAndSurvivor(rules, db, hs[0], f, hs[n], r) && IsTrail(db.aliases, hs, Seeds(db.leads[f]))
    requires NamesSurvivors(db, hs, r) && ContactOffTrail(db, hs, f)
    ensures OnTrail(rules, db, f, n)
  {
    assert MergeTrail(rules, db, hs, f, r);
  }

  /** Exactly how far the memory of the gate reaches: when a contacted host was found again and again under new ids,
      a fresh lead under the first id is refused iff it was at most twice. */
  lemma SuccessionMemory(rules: Rules, db: Db, chain: seq<Holder>, m: Db, f: LeadId, blank: Lead)
    requires IsChain(chain) && |chain| >= 2 && Begins(db, chain)
    requires forall a :: a in db.aliases ==> RowIsApart(db.aliases, a, HostsOf(chain), Seeds(blank))
    requires Run(db, Succession(chain)) == Some(m)
    requires Legal(m, Create(f, blank)) && blank.host == chain[0].row.host && rules.icp(blank)
    requires ContactIsNumeric(m, CollectListingIds(blank))
    ensures GateReason(rules, Created(m, f, blank), f).Some? <==> |chain| - 1 <= 2
  {
    var n := |chain| - 1;
    assert chain[..n + 1] == chain;
    SuccessionLeavesTrail(db, chain, n, Seeds(blank), m);
    TrailFrom(rules, db, m, chain, n, f, blank);
    TrailMemory(rules, Created(m, f, blank), f, n);
  }

  // ---------- with anything in between ----------

  /** A later write of the log gives this alias id a new row. */
  ghost predicate Relinks(db: Db, log: seq<Write>, a: HostId)
    requires LegalLog(db, log)
  {
    exists k: nat :: k < |log| && (LogPrefix(db, log, k); RelinksBy(Replay(db, log[..k]), log[k], a))
  }

  predicate RelinksBy(db: Db, w: Write, a: HostId) {
    || (w.LinkAlias? && w.aliasId == a)
    || (w.Absorb? && w.duplicate in db.leads && db.leads[w.duplicate].host == a)
  }

  /** An alias row stays as it is until its id is linked anew. */
  lemma {:induction false} RowStays(db: Db, log: seq<Write>, a: HostId)
    requires LegalLog(db, log) && !Relinks(db, log, a) && a in db.aliases
    ensures a in Replay(db, log).aliases && Replay(db, log).aliases[a] == db.aliases[a]
    decreases |log|
  {
    if log != [] {
      var n := |log| - 1;
      LogPrefix(db, log, n);
      RelinksPrefix(db, log, n, a);
      RowStays(db, log[..n], a);
      assert !RelinksBy(Replay(db, log[..n]), log[n], a);
    }
  }

  lemma RelinksPrefix(db: Db, log: seq<Write>, n: nat, a: HostId)
    requires LegalLog(db, log) && n <= |log| && !Relinks(db, log, a)
    ensures LegalLog(db, log[..n]) && !Relinks(db, log[..n], a)
  {
    LogPrefix(db, log, n);
    forall k: nat | k < n
      ensures (LogPrefix(db, log[..n], k); !RelinksBy(Replay(db, log[..n][..k]), log[..n][k], a))
    {
      LogPrefix(db, log, k);
      LogPrefix(db, log[..n], k);
      assert log[..n][..k] == log[..k] && log[..n][k] == log[k];
    }
  }

  /** After a merge, however the run goes on: while the survivor is not merged away itself and the duplicate's host id
      is not linked anew, a fresh lead under that id is refused if one of the two was contacted. */
  lemma MergeIsRemembered(rules: Rules, db: Db, c: LeadId, d: LeadId, log: seq<Write>, f: LeadId, blank: Lead)
    requires Consistent(db) && Legal(db, Absorb(c, d)) && db.leads[c].host != db.leads[d].host
    requires var n := Apply(db, Absorb(c, d));
      && LegalLog(n, log) && !Relinks(n, log, db.leads[d].host) && Heir(log, c) == c
      && var m := Replay(n, log);
      f !in m.leads && HostFree(m.leads, blank.host) && IsFresh(blank) && blank.host == db.leads[d].host
    requires Contacted(db, c) || Contacted(db, d)
    ensures GateReason(rules, Created(Replay(Apply(db, Absorb(c, d)), log), f, blank), f).Some?
  {
    var n := Apply(db, Absorb(c, d));
    WriteKeepsIndices(db, Absorb(c, d));
    MergeEffects(db, c, d);
    ContactIsPermanent(n, log, c);
    RowStays(n, log, db.leads[d].host);
    RunKeepsIndices(n, log);
    RowBlocks(rules, Replay(n, log), f, blank, c);
  }

  /** A row that names a contacted lead blocks a fresh lead under its id. */
  lemma RowBlocks(rules: Rules, m: Db, f: LeadId, blank: Lead, e: LeadId)
    requires Consistent(m) && f !in m.leads && HostFree(m.leads, blank.host) && IsFresh(blank)
    requires e in m.leads && Contacted(m, e) && blank.host in m.aliases
    requires var row := m.aliases[blank.host];
      row.lead == Some(e) || (row.canonical in m.aliases && m.aliases[row.canonical].lead == Some(e))
    ensures GateReason(rules, Created(m, f, blank), f).Some?
  {
    CreationKeepsIndices(m, f, blank);
    ChainOfTwoBlocks(rules, Created(m, f, blank), f, e);
  }

  /** The same through a second merge: the first survivor is merged in its turn, with any legal writes between the two
      merges and after them that leave the two rows and the last survivor alone. */
  lemma TwoMergesAreRemembered(rules: Rules, db: Db, c: LeadId, d: LeadId, between: seq<Write>, e: LeadId,
                               after: seq<Write>, f: LeadId, blank: Lead)
    requires Consistent(db) && Legal(db, Absorb(c, d)) && db.leads[c].host != db.leads[d].host
    requires var n := Apply(db, Absorb(c, d)); LegalLog(n, between) && Heir(between, c) == c
    requires var x := Replay(Apply(db, Absorb(c, d)), between);
      && Legal(x, Absorb(e, c)) && x.leads[e].host != x.leads[c].host && x.leads[c].host == db.leads[c].host
    requires var n := Apply(db, Absorb(c, d)); var x := Replay(n, between); var y := Apply(x, Absorb(e, c));
      && LegalLog(y, after) && Heir(after, e) == e
      && !Relinks(n, between, db.leads[d].host) && !RelinksBy(x, Absorb(e, c), db.leads[d].host)
      && !Relinks(y, after, db.leads[d].host) && !Relinks(y, after, db.leads[c].host)
      && var m := Replay(y, after);
      f !in m.leads && HostFree(m.leads, blank.host) && IsFresh(blank) && blank.host == db.leads[d].host
    requires Contacted(db, c) || Contacted(db, d) || Contacted(Replay(Apply(db, Absorb(c, d)), between), e)
    ensures var y := Apply(Replay(Apply(db, Absorb(c, d)), between), Absorb(e, c));
      GateReason(rules, Created(Replay(y, after), f, blank), f).Some?
  {
    var n := Apply(db, Absorb(c, d));
    var x := Replay(n, between);
    var y := Apply(x, Absorb(e, c));
    SurvivorStaysContacted(db, c, d, between);
    RunKeepsIndices(n, between);
    MergeEffects(x, e, c);
    RowStays(n, between, db.leads[d].host);
    ContactIsPermanent(y, after, e);
    RowStays(y, after, db.leads[d].host);
    RowStays(y, after, db.leads[c].host);
    RunKeepsIndices(y, after);
    RowBlocks(rules, Replay(y, after), f, blank, e);
  }

  lemma SurvivorStaysContacted(db: Db, c: LeadId, d: LeadId, log: seq<Write>)
    requires Consistent(db) && Legal(db, Absorb(c, d)) && LegalLog(Apply(db, Absorb(c, d)), log) && Heir(log, c) == c
    ensures Consistent(Apply(db, Absorb(c, d)))
    ensures var x := Replay(Apply(db, Absorb(c, d)), log);
      c in x.leads && (Contacted(db, c) || Contacted(db, d) ==> Contacted(x, c))
  {
    MergeEffects(db, c, d);
    ContactIsPermanent(Apply(db, Absorb(c, d)), log, c);
  }
}
