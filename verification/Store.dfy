/** The database client: four tables updated in place, each write accepted or refused by the indices. */
module Store {
  import opened Records
  import opened Identity
  import opened Merge
  import opened Writes

  class Database {
    var leads: map<LeadId, Lead>
    var aliases: map<HostId, Alias>
    var contacts: map<LeadId, Contact>
    var messages: seq<Message>

    function Snapshot(): Db
      reads this
    {
      Db(leads, aliases, contacts, messages)
    }

    ghost predicate Valid()
      reads this
    {
      Consistent(Snapshot())
    }

    constructor ()
      ensures Valid() && Snapshot() == Db(map[], map[], map[], [])
    {
      leads, aliases, contacts, messages := map[], map[], map[], [];
    }

    method CreateLead(id: LeadId, row: Lead) returns (ok: bool)
      modifies this`leads
      ensures ok == Possible(old(Snapshot()), Create(id, row))
      ensures Snapshot() == if ok then Apply(old(Snapshot()), Create(id, row)) else old(Snapshot())
    {
      ok := id !in leads && HostFree(leads, row.host) && ThreadFree(leads, id, row.thread);
      if ok {
        leads := leads[id := row];
      }
    }

    /** Every caller keeps the host id of the row it updates. */
    method UpdateLead(id: LeadId, row: Lead) returns (ok: bool)
      requires id in leads && row.host == leads[id].host
      modifies this`leads
      ensures ok == Possible(old(Snapshot()), Update(id, row))
      ensures Snapshot() == if ok then Apply(old(Snapshot()), Update(id, row)) else old(Snapshot())
    {
      ok := ThreadFree(leads, id, row.thread);
      if ok {
        leads := leads[id := row];
      }
    }

    method CreateMessage(m: Message) returns (ok: bool)
      modifies this`messages
      ensures ok == Possible(old(Snapshot()), Say(m))
      ensures Snapshot() == if ok then Apply(old(Snapshot()), Say(m)) else old(Snapshot())
    {
      ok := m.lead in leads;
      if ok {
        messages := messages + [m];
      }
    }

    method TagMessage(i: nat, intent: string)
      requires i < |messages|
      modifies this`messages
      ensures Snapshot() == Apply(old(Snapshot()), Tag(i, intent))
    {
      messages := messages[i := messages[i].(intent := Some(intent))];
    }

    /** `registerIdentityAlias`: nothing is registered for an id that stands for itself. */
    method RegisterIdentityAlias(aliasId: HostId, canonical: HostId, lead: Option<LeadId>)
      modifies this`aliases
      ensures Snapshot() == if aliasId == canonical then old(Snapshot())
        else Apply(old(Snapshot()), LinkAlias(aliasId, canonical, lead))
    {
      if aliasId == canonical {
        return;
      }
      aliases := aliases[aliasId := Alias(canonical, lead)];
    }

    /** `markHostContacted`: an upsert by lead that leaves an existing row alone. */
    method MarkHostContacted(id: LeadId, contact: Contact) returns (ok: bool)
      modifies this`contacts
      ensures id in old(contacts) ==> ok && Snapshot() == old(Snapshot())
      ensures id !in old(contacts) ==> ok == Possible(old(Snapshot()), Mark(id, contact))
      ensures Snapshot() == if ok && id !in old(contacts) then Apply(old(Snapshot()), Mark(id, contact))
        else old(Snapshot())
    {
      if id in contacts {
        return true;
      }
      ok := id in leads && ContactHostFree(contacts, id, contact.host);
      if ok {
        contacts := contacts[id := contact];
      }
    }

    /** Deleting a lead cascades to its ledger row and messages. */
    method DeleteLead(id: LeadId)
      requires id in leads
      modifies this
      ensures leads == old(leads) - {id} && aliases == old(aliases)
      ensures contacts == old(contacts) - {id} && messages == WithoutLead(old(messages), id)
    {
      leads := leads - {id};
      contacts := contacts - {id};
      messages := WithoutLead(messages, id);
    }

    /** `mergeLeadIntoCanonical`: nothing to do for a lead and itself, else the transaction; a committed one leaves a
        survivor that has inherited what it lacked. */
    method MergeLeadIntoCanonical(canonical: LeadId, duplicate: LeadId) returns (ok: bool)
      requires Sound(Snapshot()) && canonical in leads && duplicate in leads
      modifies this
      ensures ok <==> canonical == duplicate || MergeCommits(old(Snapshot()), canonical, duplicate)
      ensures Snapshot() == if ok && canonical != duplicate then Merged(old(Snapshot()), canonical, duplicate)
        else old(Snapshot())
      ensures ok && canonical != duplicate ==>
        canonical in leads && Inherits(old(leads)[canonical], old(leads)[duplicate], leads[canonical])
    {
      if canonical == duplicate {
        return true;
      }
      SurvivorInherits(Snapshot(), canonical, duplicate);
      ok := MergeInTransaction(canonical, duplicate);
    }

    /** The writes of the transaction in their order, each checked by the indices as it is made; the first refusal rolls
        all of them back. */
    method MergeInTransaction(canonical: LeadId, duplicate: LeadId) returns (ok: bool)
      requires Sound(Snapshot()) && canonical in leads && duplicate in leads && canonical != duplicate
      modifies this
      ensures ok <==> MergeCommits(old(Snapshot()), canonical, duplicate)
      ensures Snapshot() == if ok then Merged(old(Snapshot()), canonical, duplicate) else old(Snapshot())
    {
      var c, d := leads[canonical], leads[duplicate];
      var contacts0, aliases0, messages0 := contacts, aliases, messages;
      messages := Relabel(messages, duplicate, canonical);
      if duplicate in contacts {
        if canonical in contacts {
          contacts := contacts - {duplicate};
        } else if ContactHostFree(contacts, duplicate, c.host) {
          contacts := contacts[canonical := contacts[duplicate].(host := c.host)] - {duplicate};
        } else {
          messages := messages0;
          return false;
        }
      }
      if d.host != c.host {
        aliases := aliases[d.host := Alias(c.host, Some(canonical))];
      }
      var updated := UpdateLead(canonical, MergedRow(c, d));
      if !updated {
        contacts, aliases, messages := contacts0, aliases0, messages0;
        return false;
      }
      RelabelLeavesNone(messages0, duplicate, canonical);
      DeleteLead(duplicate);
      return true;
    }
  }

  function WithoutLead(ms: seq<Message>, id: LeadId): seq<Message> {
    if ms == [] then []
    else WithoutLead(ms[..|ms| - 1], id) + if ms[|ms| - 1].lead == id then [] else [ms[|ms| - 1]]
  }

  /** Since the messages were moved first, the cascade of the delete takes none of them. */
  lemma {:induction false} RelabelLeavesNone(ms: seq<Message>, d: LeadId, c: LeadId)
    requires c != d
    ensures WithoutLead(Relabel(ms, d, c), d) == Relabel(ms, d, c)
  {
    if ms != [] {
      RelabelLeavesNone(ms[..|ms| - 1], d, c);
      var r := Relabel(ms, d, c);
      assert r[..|r| - 1] == Relabel(ms[..|ms| - 1], d, c);
    }
  }
}
