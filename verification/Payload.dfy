/** Searching a captured JSON payload breadth first, with a queue of nodes still to look at. */
module Payload {
  import opened Records
  import opened Texts

  /** A parsed payload. The keys of an object are distinct; its fields keep their order. */
  datatype Json =
    | Null
    | Flag(value: bool)
    | Number(amount: real)
    | Text(chars: string)
    | List(items: seq<Json>)
    | Object(fields: seq<Field>)

  datatype Field = Field(key: string, content: Json)

  function Contents(fields: seq<Field>): (r: seq<Json>)
    ensures |r| == |fields| && forall i :: 0 <= i < |r| ==> r[i] == fields[i].content
  {
    seq(|fields|, i requires 0 <= i < |fields| => fields[i].content)
  }

  /** What is searched below a node. */
  function Children(n: Json): seq<Json> {
    match n
    case List(items) => items
    case Object(fields) => Contents(fields)
    case _ => []
  }

  // ---------- what is looked for ----------

  const LISTING_COUNT_KEYS: seq<string> := [
    "listingCount", "activeListingCount", "totalListings", "listingsCount", "activeListingsCount",
        "managedListingCount",
    "managedListingsCount", "totalListingsCount", "publishedListingCount", "publishedListingsCount",
        "hostListingsCount", "numListings"]

  const SUPERHOST_KEYS: seq<string> := ["isSuperhost", "isSuperHost", "superhost"]

  function Get(fields: seq<Field>, key: string): Option<Json> {
    if fields == [] then None else if fields[0].key == key then Some(fields[0].content) else Get(fields[1..], key)
  }

  /** A positive number, or a string of digits that stands for one. */
  function CountIn(v: Json): Option<real> {
    match v
    case Number(x) => if x > 0.0 then Some(x) else None
    case Text(s) => if s != "" && AllDigits(s) && ParseDigits(s) > 0 then Some(ParseDigits(s) as real) else None
    case _ => None
  }

  function FlagIn(v: Json): Option<bool> {
    if v.Flag? then Some(v.value) else None
  }

  /** The first listed key whose value reads as wanted. */
  function FirstUnder<T>(keys: seq<string>, fields: seq<Field>, read: Json -> Option<T>): Option<T> {
    if keys == [] then None
    else
      var v := Get(fields, keys[0]);
      if v.Some? && read(v.value).Some? then read(v.value) else FirstUnder(keys[1..], fields, read)
  }

  function CountOf(n: Json): Option<real> {
    if n.Object? then FirstUnder(LISTING_COUNT_KEYS, n.fields, CountIn) else None
  }

  function SuperhostOf(n: Json): Option<bool> {
    if n.Object? then FirstUnder(SUPERHOST_KEYS, n.fields, FlagIn) else None
  }

  /** Nothing is found exactly when no listed key reads as wanted, and what is found stands under the first that
      does. */
  lemma {:induction false} FirstUnderMeaning<T>(keys: seq<string>, fields: seq<Field>, read: Json -> Option<T>)
    ensures FirstUnder(keys, fields, read).None?
       <==> forall i :: 0 <= i < |keys| ==> ReadsNothing(fields, keys[i], read)
    ensures FirstUnder(keys, fields, read).Some? ==>
      exists i :: 0 <= i < |keys| && !ReadsNothing(fields, keys[i], read)
        && read(Get(fields, keys[i]).value) == FirstUnder(keys, fields, read)
        && forall j :: 0 <= j < i ==> ReadsNothing(fields, keys[j], read)
  {
    if keys != [] {
      FirstUnderMeaning(keys[1..], fields, read);
      assert forall i :: 1 <= i < |keys| ==> keys[i] == keys[1..][i - 1];
      if ReadsNothing(fields, keys[0], read) && FirstUnder(keys[1..], fields, read).Some? {
        var i :| 0 <= i < |keys[1..]| && !ReadsNothing(fields, keys[1..][i], read)
          && read(Get(fields, keys[1..][i]).value) == FirstUnder(keys[1..], fields, read)
          && forall j :: 0 <= j < i ==> ReadsNothing(fields, keys[1..][j], read);
        assert forall j :: 0 <= j < i + 1 ==> j == 0 || keys[j] == keys[1..][j - 1];
        assert keys[i + 1] == keys[1..][i];
      } else if !ReadsNothing(fields, keys[0], read) {
        assert read(Get(fields, keys[0]).value) == FirstUnder(keys, fields, read);
      }
    }
  }

  predicate ReadsNothing<T>(fields: seq<Field>, key: string, read: Json -> Option<T>) {
    Get(fields, key).None? || read(Get(fields, key).value).None?
  }

  // ---------- places in a payload ----------

  /** The node at the end of a path of child numbers. */
  function Follow(n: Json, path: seq<nat>): Option<Json> {
    if path == [] then Some(n)
    else if path[0] < |Children(n)| then Follow(Children(n)[path[0]], path[1..])
    else None
  }

  function Below(nodes: seq<Json>): seq<Json> {
    if nodes == [] then [] else Children(nodes[0]) + Below(nodes[1..])
  }

  /** All nodes at one depth, from left to right. */
  function Level(n: Json, depth: nat): seq<Json> {
    if depth == 0 then [n] else Below(Level(n, depth - 1))
  }

  lemma Assoc<T>(a: seq<T>, b: seq<T>, c: seq<T>)
    ensures (a + b) + c == a + (b + c)
  {
  }

  lemma {:induction false} BelowConcat(a: seq<Json>, b: seq<Json>)
    ensures Below(a + b) == Below(a) + Below(b)
  {
    if a == [] {
      assert a + b == b;
    } else {
      BelowConcat(a[1..], b);
      assert (a + b)[1..] == a[1..] + b;
      Assoc(Children(a[0]), Below(a[1..]), Below(b));
    }
  }

  lemma {:induction false} BelowMember(nodes: seq<Json>, x: Json)
    ensures x in Below(nodes) <==> exists n :: n in nodes && x in Children(n)
  {
    if nodes != [] {
      BelowMember(nodes[1..], x);
      assert nodes == [nodes[0]] + nodes[1..];
    }
  }

  lemma {:induction false} FollowOneMore(n: Json, path: seq<nat>, i: nat)
    ensures Follow(n, path + [i]) ==
      var end := Follow(n, path); if end.Some? && i < |Children(end.value)| then Some(Children(end.value)[i]) else None
  {
    if path == [] {
      assert path + [i] == [i] && [i][1..] == [];
    } else {
      assert (path + [i])[1..] == path[1..] + [i];
      if path[0] < |Children(n)| {
        FollowOneMore(Children(n)[path[0]], path[1..], i);
      }
    }
  }

  lemma PathToChild(n: Json, up: seq<nat>, parent: Json, x: Json) returns (path: seq<nat>)
    requires Follow(n, up) == Some(parent) && x in Children(parent)
    ensures |path| == |up| + 1 && Follow(n, path) == Some(x)
  {
    var i :| 0 <= i < |Children(parent)| && Children(parent)[i] == x;
    FollowOneMore(n, up, i);
    path := up + [i];
  }

  lemma ParentOnLevel(n: Json, depth: nat, x: Json) returns (parent: Json)
    requires depth > 0 && x in Level(n, depth)
    ensures parent in Level(n, depth - 1) && x in Children(parent)
  {
    BelowMember(Level(n, depth - 1), x);
    parent :| parent in Level(n, depth - 1) && x in Children(parent);
  }

  lemma {:induction false} PathToLevel(n: Json, depth: nat, x: Json) returns (path: seq<nat>)
    requires x in Level(n, depth)
    ensures |path| == depth && Follow(n, path) == Some(x)
  {
    if depth == 0 {
      path := [];
    } else {
      var parent := ParentOnLevel(n, depth, x);
      var up := PathToLevel(n, depth - 1, parent);
      path := PathToChild(n, up, parent, x);
    }
  }

  lemma {:induction false} LevelOfPath(n: Json, path: seq<nat>)
    requires Follow(n, path).Some?
    ensures Follow(n, path).value in Level(n, |path|)
    decreases |path|
  {
    if path != [] {
      var up, i := path[..|path| - 1], path[|path| - 1];
      assert path == up + [i];
      FollowOneMore(n, up, i);
      LevelOfPath(n, up);
      BelowMember(Level(n, |up|), Follow(n, path).value);
    }
  }

  /** A level holds exactly the nodes that paths of its length lead to. */
  lemma LevelIsDepth(n: Json, depth: nat, x: Json)
    ensures x in Level(n, depth) <==> exists path: seq<nat> :: |path| == depth && Follow(n, path) == Some(x)
  {
    if x in Level(n, depth) {
      var path := PathToLevel(n, depth, x);
    }
    if path: seq<nat> :| |path| == depth && Follow(n, path) == Some(x) {
      LevelOfPath(n, path);
    }
  }

  // ---------- how long a search can last ----------

  function Nodes(n: Json): nat {
    match n
    case List(items) => 1 + NodesOf(items)
    case Object(fields) => 1 + NodesOfFields(fields)
    case _ => 1
  }

  function NodesOf(ns: seq<Json>): nat {
    if ns == [] then 0 else Nodes(ns[0]) + NodesOf(ns[1..])
  }

  function NodesOfFields(fields: seq<Field>): nat {
    if fields == [] then 0 else Nodes(fields[0].content) + NodesOfFields(fields[1..])
  }

  lemma {:induction false} FieldsAreContents(fields: seq<Field>)
    ensures NodesOfFields(fields) == NodesOf(Contents(fields))
  {
    if fields != [] {
      FieldsAreContents(fields[1..]);
      assert Contents(fields)[1..] == Contents(fields[1..]);
    }
  }

  lemma {:induction false} NodesConcat(a: seq<Json>, b: seq<Json>)
    ensures NodesOf(a + b) == NodesOf(a) + NodesOf(b)
  {
    if a == [] {
      assert a + b == b;
    } else {
      NodesConcat(a[1..], b);
      assert (a + b)[1..] == a[1..] + b;
    }
  }

  /** A node counts one more than its children together. */
  lemma NodeAndChildren(n: Json)
    ensures Nodes(n) == 1 + NodesOf(Children(n))
  {
    if n.Object? {
      FieldsAreContents(n.fields);
    }
  }

  // ---------- the search ----------

  ghost predicate NothingAbove<T>(root: Json, depth: nat, probe: Json -> Option<T>) {
    forall d: nat, x :: d < depth && x in Level(root, d) ==> probe(x).None?
  }

  /** `path` leads to the find: its node gives `found`, and no node nearer to the root gives anything. */
  ghost predicate ShallowestAt<T>(root: Json, probe: Json -> Option<T>, found: Option<T>, path: seq<nat>) {
    && Follow(root, path).Some? && probe(Follow(root, path).value) == found
    && forall shorter: seq<nat> :: |shorter| < |path| && Follow(root, shorter).Some? ==>
      probe(Follow(root, shorter).value).None?
  }

  ghost predicate NothingAnywhere<T>(root: Json, probe: Json -> Option<T>) {
    forall path: seq<nat> :: Follow(root, path).Some? ==> probe(Follow(root, path).value).None?
  }

  lemma FindIsShallowest<T>(root: Json, probe: Json -> Option<T>, depth: nat, x: Json)
    requires NothingAbove(root, depth, probe) && x in Level(root, depth)
    ensures exists path :: ShallowestAt(root, probe, probe(x), path)
  {
    var path := PathToLevel(root, depth, x);
    forall shorter: seq<nat> | |shorter| < depth && Follow(root, shorter).Some?
      ensures probe(Follow(root, shorter).value).None?
    {
      LevelOfPath(root, shorter);
    }
    assert ShallowestAt(root, probe, probe(x), path);
  }

  lemma {:induction false} EmptyStaysEmpty(root: Json, depth: nat, d: nat)
    requires Level(root, depth) == [] && depth <= d
    ensures Level(root, d) == []
    decreases d
  {
    if depth < d {
      EmptyStaysEmpty(root, depth, d - 1);
    }
  }

  lemma SearchedAll<T>(root: Json, probe: Json -> Option<T>, depth: nat)
    requires NothingAbove(root, depth, probe) && Level(root, depth) == []
    ensures NothingAnywhere(root, probe)
  {
    forall path: seq<nat> | Follow(root, path).Some?
      ensures probe(Follow(root, path).value).None?
    {
      LevelOfPath(root, path);
      if depth <= |path| {
        EmptyStaysEmpty(root, depth, |path|);
      }
    }
  }

  /** The queue: the rest of a level, then what hangs below the part already looked at. */
  ghost predicate Queued(level: seq<Json>, i: nat, queue: seq<Json>) {
    i <= |level| && queue == level[i..] + Below(level[..i])
  }

  lemma BelowOneMore(level: seq<Json>, i: nat)
    requires i < |level|
    ensures Below(level[..i + 1]) == Below(level[..i]) + Children(level[i])
  {
    assert level[..i + 1] == level[..i] + [level[i]];
    BelowConcat(level[..i], [level[i]]);
    assert [level[i]][1..] == [];
    assert Below([level[i]]) == Children(level[i]) + [];
  }

  /** One node taken off the front of the queue and its children put at the end. */
  lemma QueueMoves(level: seq<Json>, i: nat, queue: seq<Json>)
    requires i < |level| && Queued(level, i, queue)
    ensures queue != [] && queue[0] == level[i] && Queued(level, i + 1, queue[1..] + Children(queue[0]))
  {
    BelowOneMore(level, i);
    assert queue[1..] == level[i + 1..] + Below(level[..i]);
    Assoc(level[i + 1..], Below(level[..i]), Children(level[i]));
  }

  lemma QueueShrinks(queue: seq<Json>)
    requires queue != []
    ensures NodesOf(queue[1..] + Children(queue[0])) < NodesOf(queue)
  {
    NodesConcat(queue[1..], Children(queue[0]));
    NodeAndChildren(queue[0]);
  }

  /** At the end of a level the queue is the next level. */
  lemma LevelDone(root: Json, depth: nat, queue: seq<Json>)
    requires Queued(Level(root, depth), |Level(root, depth)|, queue)
    ensures Queued(Level(root, depth + 1), 0, queue)
  {
    var level, next := Level(root, depth), Level(root, depth + 1);
    assert level[..|level|] == level && level[|level|..] == [];
    assert next[..0] == [] && next[0..] == next;
  }

  lemma NothingOnLevel<T>(root: Json, depth: nat, probe: Json -> Option<T>)
    requires NothingAbove(root, depth, probe)
    requires forall j :: 0 <= j < |Level(root, depth)| ==> probe(Level(root, depth)[j]).None?
    ensures NothingAbove(root, depth + 1, probe)
  {
  }

  /** The leftmost node of its level that gives anything, with nothing above. */
  ghost predicate FirstHit<T>(root: Json, probe: Json -> Option<T>, found: Option<T>, depth: nat, i: nat) {
    && NothingAbove(root, depth, probe)
    && i < |Level(root, depth)| && probe(Level(root, depth)[i]) == found
    && forall j :: 0 <= j < i ==> probe(Level(root, depth)[j]).None?
  }

  /** None: nothing anywhere. Otherwise: the find of a node nearest to the root, the leftmost of those. */
  ghost predicate Answers<T>(root: Json, probe: Json -> Option<T>, found: Option<T>) {
    if found.None? then NothingAnywhere(root, probe)
    else (exists path :: ShallowestAt(root, probe, found, path)) && exists depth: nat, i: nat ::
        FirstHit(root, probe, found, depth, i)
  }

  /** Where a search stands: on one level, with everything before that place looked at in vain. */
  ghost predicate Searching<T>(root: Json, probe: Json -> Option<T>, depth: nat, level: seq<Json>, i: nat,
                               queue: seq<Json>) {
    && level == Level(root, depth) && Queued(level, i, queue)
    && (i < |level| || (i == 0 && level == []))
    && NothingAbove(root, depth, probe)
    && forall j :: 0 <= j < i ==> probe(level[j]).None?
  }

  lemma SameLevel<T>(root: Json, probe: Json -> Option<T>, depth: nat, level: seq<Json>, i: nat, queue: seq<Json>,
                     rest: seq<Json>)
    requires Searching(root, probe, depth, level, i, queue) && i + 1 < |level| && probe(level[i]).None?
    requires Queued(level, i + 1, rest)
    ensures Searching(root, probe, depth, level, i + 1, rest)
  {
  }

  lemma SearchGoesOn<T>(root: Json, probe: Json -> Option<T>, depth: nat, level: seq<Json>, i: nat, queue: seq<Json>)
    returns (d: nat, next: seq<Json>, k: nat)
    requires Searching(root, probe, depth, level, i, queue) && queue != [] && probe(queue[0]).None?
    ensures Searching(root, probe, d, next, k, queue[1..] + Children(queue[0]))
  {
    QueueMoves(level, i, queue);
    if i + 1 < |level| {
      SameLevel(root, probe, depth, level, i, queue, queue[1..] + Children(queue[0]));
      d, next, k := depth, level, i + 1;
    } else {
      NextLevel(root, probe, depth, level, queue[1..] + Children(queue[0]));
      d, next, k := depth + 1, Level(root, depth + 1), 0;
    }
  }

  lemma NextLevel<T>(root: Json, probe: Json -> Option<T>, depth: nat, level: seq<Json>, queue: seq<Json>)
    requires level == Level(root, depth) && Queued(level, |level|, queue) && NothingAbove(root, depth, probe)
    requires forall j :: 0 <= j < |level| ==> probe(level[j]).None?
    ensures Searching(root, probe, depth + 1, Level(root, depth + 1), 0, queue)
  {
    LevelDone(root, depth, queue);
    NothingOnLevel(root, depth, probe);
  }

  /** The worklist: it ends, finds nothing only when there is nothing anywhere, and otherwise finds what stands
      nearest to the root, the leftmost of what stands equally near. */
  method Search<T>(payload: Json, probe: Json -> Option<T>) returns (found: Option<T>)
    ensures Answers(payload, probe, found)
  {
    var queue := [payload];
    ghost var depth: nat, level: seq<Json>, i: nat := 0, [payload], 0;
    assert Below([payload][..0]) == [];
    while |queue| > 0
      invariant Searching(payload, probe, depth, level, i, queue)
      decreases NodesOf(queue)
    {
      QueueShrinks(queue);
      var current := queue[0];
      var hit := probe(current);
      if hit.Some? {
        QueueMoves(level, i, queue);
        FindIsShallowest(payload, probe, depth, current);
        assert FirstHit(payload, probe, hit, depth, i);
        return hit;
      }
      depth, level, i := SearchGoesOn(payload, probe, depth, level, i, queue);
      queue := queue[1..] + Children(current);
    }
    SearchedAll(payload, probe, depth);
    found := None;
  }

  lemma FoundIffThere<T>(root: Json, probe: Json -> Option<T>, found: Option<T>)
    requires Answers(root, probe, found)
    ensures found.None? <==> NothingAnywhere(root, probe)
  {
    if found.Some? {
      var path :| ShallowestAt(root, probe, found, path);
    }
  }

  /** `extractListingCountFromPayload`. */
  method ExtractListingCount(payload: Json) returns (count: Option<real>)
    ensures count.None? <==> NothingAnywhere(payload, CountOf)
    ensures Answers(payload, CountOf, count)
  {
    count := Search(payload, CountOf);
    FoundIffThere(payload, CountOf, count);
  }

  /** `extractSuperhostFromPayload`. */
  method ExtractSuperhost(payload: Json) returns (superhost: Option<bool>)
    ensures superhost.None? <==> NothingAnywhere(payload, SuperhostOf)
    ensures Answers(payload, SuperhostOf, superhost)
  {
    superhost := Search(payload, SuperhostOf);
    FoundIffThere(payload, SuperhostOf, superhost);
  }

  /** In terms of the keys: a count is missing exactly when no object of the payload has a positive count under any of
      them. */
  lemma NoCountMeans(payload: Json)
    ensures NothingAnywhere(payload, CountOf) <==> NoCountAnywhere(payload)
  {
    if NothingAnywhere(payload, CountOf) {
      forall path: seq<nat> | Follow(payload, path).Some?
        ensures HasNoCount(Follow(payload, path).value)
      {
        assert CountOf(Follow(payload, path).value).None?;
        NoCountHere(Follow(payload, path).value);
      }
    }
    if NoCountAnywhere(payload) {
      forall path: seq<nat> | Follow(payload, path).Some?
        ensures CountOf(Follow(payload, path).value).None?
      {
        assert HasNoCount(Follow(payload, path).value);
        NoCountHere(Follow(payload, path).value);
      }
    }
  }

  ghost predicate NoCountAnywhere(payload: Json) {
    forall path: seq<nat> :: Follow(payload, path).Some? ==> HasNoCount(Follow(payload, path).value)
  }

  predicate HasNoCount(n: Json) {
    n.Object? ==> forall i :: 0 <= i < |LISTING_COUNT_KEYS| ==> ReadsNothing(n.fields, LISTING_COUNT_KEYS[i], CountIn)
  }

  lemma NoCountHere(n: Json)
    ensures CountOf(n).None? <==> HasNoCount(n)
  {
    if n.Object? {
      FirstUnderMeaning(LISTING_COUNT_KEYS, n.fields, CountIn);
    }
  }

  // ---------- what a node gives ----------

  /** A count is a positive number, or a text of decimal digits that stands for one. */
  lemma CountInMeans(v: Json, x: real)
    ensures CountIn(v) == Some(x)
       <==> x > 0.0 && (v == Number(x) || (v.Text? && v.chars != "" && AllDigits(v.chars)
              && ParseDigits(v.chars) as real == x))
  {
  }

  /** A flag is a truth value, false included. */
  lemma FlagInMeans(v: Json, b: bool)
    ensures FlagIn(v) == Some(b) <==> v == Flag(b)
  {
  }

  /** The first field with the key. */
  lemma {:induction false} GetMeans(fields: seq<Field>, key: string)
    ensures Get(fields, key) == None <==> forall i :: 0 <= i < |fields| ==> fields[i].key != key
    ensures Get(fields, key) != None ==>
      exists i :: HoldsFirst(fields, key, i) && Get(fields, key) == Some(fields[i].content)
  {
    if fields != [] {
      if fields[0].key == key {
        assert HoldsFirst(fields, key, 0);
      } else {
        GetMeans(fields[1..], key);
        assert forall i :: 1 <= i < |fields| ==> fields[i] == fields[1..][i - 1];
        if Get(fields[1..], key) != None {
          var i :| HoldsFirst(fields[1..], key, i) && Get(fields[1..], key) == Some(fields[1..][i].content);
          assert HoldsFirst(fields, key, i + 1);
        }
      }
    }
  }

  predicate HoldsFirst(fields: seq<Field>, key: string, i: int) {
    0 <= i < |fields| && fields[i].key == key && forall j :: 0 <= j < i ==> fields[j].key != key
  }

  /** One step down: into the items of a list and the values of an object, in their order, and nowhere else. */
  lemma ChildrenMean(n: Json, i: nat)
    ensures n.List? ==> Follow(n, [i]) == if i < |n.items| then Some(n.items[i]) else None
    ensures n.Object? ==> Follow(n, [i]) == if i < |n.fields| then Some(n.fields[i].content) else None
    ensures !n.List? && !n.Object? ==> Follow(n, [i]) == None
  {
    assert [i][1..] == [];
  }

  /** The keys, the ones tried first in front. */
  lemma KeysInOrder()
    ensures |LISTING_COUNT_KEYS| == 12 && |SUPERHOST_KEYS| == 3
    ensures LISTING_COUNT_KEYS[0] == "listingCount" && LISTING_COUNT_KEYS[1] == "activeListingCount"
    ensures LISTING_COUNT_KEYS[2] == "totalListings" && LISTING_COUNT_KEYS[3] == "listingsCount"
    ensures LISTING_COUNT_KEYS[4] == "activeListingsCount" && LISTING_COUNT_KEYS[5] == "managedListingCount"
    ensures LISTING_COUNT_KEYS[6] == "managedListingsCount" && LISTING_COUNT_KEYS[7] == "totalListingsCount"
    ensures LISTING_COUNT_KEYS[8] == "publishedListingCount" && LISTING_COUNT_KEYS[9] == "publishedListingsCount"
    ensures LISTING_COUNT_KEYS[10] == "hostListingsCount" && LISTING_COUNT_KEYS[11] == "numListings"
    ensures SUPERHOST_KEYS[0] == "isSuperhost" && SUPERHOST_KEYS[1] == "isSuperHost"
    ensures SUPERHOST_KEYS[2] == "superhost"
  {
  }

  /** The value under the first key of the list that reads as wanted, and none iff no key does. */
  ghost predicate FirstListed<T>(keys: seq<string>, fields: seq<Field>, read: Json -> Option<T>, found: Option<T>) {
    match found
    case None => forall i :: 0 <= i < |keys| ==> ReadsNothing(fields, keys[i], read)
    case Some(_) => exists i :: 0 <= i < |keys| && FirstToRead(keys, fields, read, found, i)
  }

  ghost predicate FirstToRead<T>(keys: seq<string>, fields: seq<Field>, read: Json -> Option<T>, found: Option<T>,
                                 i: nat)
    requires i < |keys|
  {
    && Get(fields, keys[i]).Some? && read(Get(fields, keys[i]).value) == found
    && forall j :: 0 <= j < i ==> ReadsNothing(fields, keys[j], read)
  }

  lemma FirstIsListed<T>(keys: seq<string>, fields: seq<Field>, read: Json -> Option<T>)
    ensures FirstListed(keys, fields, read, FirstUnder(keys, fields, read))
  {
    FirstUnderMeaning(keys, fields, read);
    if FirstUnder(keys, fields, read).Some? {
      var i :| 0 <= i < |keys| && !ReadsNothing(fields, keys[i], read)
        && read(Get(fields, keys[i]).value) == FirstUnder(keys, fields, read)
        && forall j :: 0 <= j < i ==> ReadsNothing(fields, keys[j], read);
      assert FirstToRead(keys, fields, read, FirstUnder(keys, fields, read), i);
    }
  }

  /** Only objects give anything: the count or the flag under the first of the twelve or the three keys. */
  lemma NodeGives(n: Json)
    ensures n.Object? ==> FirstListed(LISTING_COUNT_KEYS, n.fields, CountIn, CountOf(n))
    ensures n.Object? ==> FirstListed(SUPERHOST_KEYS, n.fields, FlagIn, SuperhostOf(n))
    ensures !n.Object? ==> CountOf(n) == None && SuperhostOf(n) == None
  {
    if n.Object? {
      FirstIsListed(LISTING_COUNT_KEYS, n.fields, CountIn);
      FirstIsListed(SUPERHOST_KEYS, n.fields, FlagIn);
    }
  }
}
