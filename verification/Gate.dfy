/** The cold-outbound gate: what it refuses, and which leads the cold queue offers. */
module Gate {
  import opened Records
  import opened Identity

  /** Rules that are data in the repository: ICP eligibility of a lead row, text trimming,
      content normalisation and the thread-noise filter. */
  datatype Rules = Rules(
    icp: Lead -> bool,
    trim: string -> string,
    normalize: string -> string,
    noise: string -> bool)

  datatype BlockReason =
    | StatusNotDiscovered
    | ThreadExists
    | OutboundMessageExists
    | HostContactLedger
    | ClusterAlreadyContacted
    | IcpIneligible

  function EvaluateContactBlock(l: Lead, hasOutbound: bool, hasContact: bool): Option<BlockReason> {
    if !l.status.LeadDiscovered? then Some(StatusNotDiscovered)
    else if l.thread.Some? then Some(ThreadExists)
    else if hasOutbound then Some(OutboundMessageExists)
    else if hasContact then Some(HostContactLedger)
    else None
  }

  /** The three queries of the cluster check: a contacted lead row, a ledger row, an outbound message. */
  predicate ClusterContacted(db: Db, c: Cluster) {
    || (exists k :: k in c.leadIds && k in db.leads && RowContacted(db.leads[k]))
    || (exists k :: k in db.contacts && (k in c.leadIds || db.contacts[k].host in c.hostIds))
    || (exists i :: 0 <= i < |db.messages| && db.messages[i].lead in c.leadIds && db.messages[i].direction.Outbound?)
  }

  /** Why a cold message to `id` is refused, or None when it may go. */
  function GateReason(rules: Rules, db: Db, id: LeadId): Option<BlockReason>
    requires id in db.leads
  {
    var l := db.leads[id];
    if !rules.icp(l) then Some(IcpIneligible)
    else
      var own := EvaluateContactBlock(l, HasOutbound(db.messages, id), id in db.contacts);
      if own.Some? then own
      else if ClusterContacted(db, ClusterOf(db, id, l)) then Some(ClusterAlreadyContacted)
      else None
  }

  /** No lead of the cluster is contacted in any of the four senses and no ledger row carries one of its host ids. */
  ghost predicate ClusterUntouched(db: Db, c: Cluster) {
    && (forall k :: k in c.leadIds && k in db.leads ==> !Contacted(db, k))
    && (forall k :: k in db.contacts ==> db.contacts[k].host !in c.hostIds)
  }

  lemma ClusterContactedMeaning(db: Db, c: Cluster)
    requires Sound(db)
    ensures ClusterContacted(db, c) <==> !ClusterUntouched(db, c)
  {
    if ClusterContacted(db, c) && ClusterUntouched(db, c) {
      if i :| 0 <= i < |db.messages| && db.messages[i].lead in c.leadIds && db.messages[i].direction.Outbound? {
        assert Contacted(db, db.messages[i].lead);
        assert false;
      }
    }
    if !ClusterContacted(db, c) {
      forall k | k in c.leadIds && k in db.leads
        ensures !Contacted(db, k)
      {
      }
    }
  }

  /** The gate lets a lead through iff it is eligible and nothing in its identity cluster was ever contacted. */
  lemma GateMeaning(rules: Rules, db: Db, id: LeadId)
    requires Sound(db) && id in db.leads
    ensures GateReason(rules, db, id).None?
       <==> rules.icp(db.leads[id]) && ClusterUntouched(db, ClusterOf(db, id, db.leads[id]))
  {
    var c := ClusterOf(db, id, db.leads[id]);
    LeadIsInItsCluster(db, id, db.leads[id]);
    OwnBlockMeaning(db, id);
    VerdictOf(rules, db, id, c);
    ClusterContactedMeaning(db, c);
  }

  lemma LeadIsInItsCluster(db: Db, id: LeadId, l: Lead)
    ensures id in ClusterOf(db, id, l).leadIds
  {
  }

  lemma OwnBlockMeaning(db: Db, id: LeadId)
    requires id in db.leads
    ensures EvaluateContactBlock(db.leads[id], HasOutbound(db.messages, id), id in db.contacts).None?
       <==> !Contacted(db, id)
  {
  }

  lemma VerdictOf(rules: Rules, db: Db, id: LeadId, c: Cluster)
    requires id in db.leads && c == ClusterOf(db, id, db.leads[id])
    ensures var own := EvaluateContactBlock(db.leads[id], HasOutbound(db.messages, id), id in db.contacts);
      GateReason(rules, db, id).None? <==> rules.icp(db.leads[id]) && own.None? && !ClusterContacted(db, c)
  {
  }

  /** Behind an open gate the lead itself is uncontacted. */
  lemma OpenGateMeansUncontacted(rules: Rules, db: Db, id: LeadId)
    requires id in db.leads && GateReason(rules, db, id).None?
    ensures db.leads[id].status.LeadDiscovered? && !Contacted(db, id)
  {
    assert EvaluateContactBlock(db.leads[id], HasOutbound(db.messages, id), id in db.contacts).None?;
  }

  // ---------- the cold queue ----------

  datatype QueueConfig = QueueConfig(
    minProperties: int,
    maxProperties: int,
    requireSuperhost: bool,
    market: Option<string>,
    marketsAtQuota: set<string>,
    excluded: set<LeadId>)

  /** The row filter of the cold query. */
  predicate ColdRow(cfg: QueueConfig, db: Db, id: LeadId)
    requires id in db.leads
  {
    var l := db.leads[id];
    && l.status.LeadDiscovered?
    && l.thread.None?
    && cfg.minProperties <= l.total <= cfg.maxProperties
    && l.icpSkip.None?
    && id !in db.contacts
    && !HasOutbound(db.messages, id)
    && (cfg.requireSuperhost ==> l.superhost)
    && (if cfg.market.Some? then l.market == cfg.market
        else cfg.marketsAtQuota == {} || (l.market.Some? && l.market.value !in cfg.marketsAtQuota))
    && id !in cfg.excluded
  }

  /** `rows` answers the cold query without its limit: every matching lead once, in some order. */
  ghost predicate AnswersColdQuery(cfg: QueueConfig, db: Db, rows: seq<LeadId>) {
    && (forall i :: 0 <= i < |rows| ==> rows[i] in db.leads && ColdRow(cfg, db, rows[i]))
    && (forall k :: k in db.leads && ColdRow(cfg, db, k) ==> k in rows)
    && (forall i, j :: 0 <= i < j < |rows| ==> rows[i] != rows[j])
  }

  /** The in-process test the queue applies to a row. */
  predicate PassesQueue(rules: Rules, db: Db, id: LeadId)
    requires id in db.leads
  {
    rules.icp(db.leads[id]) && !RowContacted(db.leads[id]) && !ClusterContacted(db, ClusterOf(db, id, db.leads[id]))
  }

  ghost function GateAccepted(rules: Rules, db: Db, rows: seq<LeadId>): seq<LeadId>
    requires forall i :: 0 <= i < |rows| ==> rows[i] in db.leads
  {
    if rows == [] then []
    else
      var front := GateAccepted(rules, db, rows[..|rows| - 1]);
      if GateReason(rules, db, rows[|rows| - 1]).None? then front + [rows[|rows| - 1]] else front
  }

  function Min(a: int, b: int): int { if a <= b then a else b }

  /** On a row of the cold query the queue's test is the gate. */
  lemma QueueTestIsGate(rules: Rules, cfg: QueueConfig, db: Db, id: LeadId)
    requires Sound(db) && id in db.leads && ColdRow(cfg, db, id)
    ensures PassesQueue(rules, db, id) <==> GateReason(rules, db, id).None?
  {
  }
}
