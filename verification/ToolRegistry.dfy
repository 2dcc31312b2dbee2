/**
 The gateway's tool registry: registrations, the fixed point that admits them, and the views it
 publishes. Whether a contract's structure and roles are acceptable, what a companion must
 declare, and the digest of a document are functions the caller supplies.
 */
module ToolRegistry {
  import opened EventLog
  import CanonicalText
  import FiniteSets
  import Sorting

  datatype Key = Key(id: string, version: string)

  /** A contract's body; `body` stands for everything the canonical text covers. */
  datatype Tool = Tool(key: Key, body: nat, route: string, companions: seq<string>)

  datatype State = Pending | Admitted | Rejected

  datatype Record = Record(tool: Tool, state: State, admitted: bool)

  type Records = map<Key, Record>

  /** What one registration turns out to be. */
  datatype Contract =
    | Undecodable(key: Key, shell: Tool)      // its conversion or canonical encoding failed
    | Malformed(tool: Tool)                   // its structure or one of its roles was refused
    | Decoded(tool: Tool)

  function KeyOf(c: Contract): (k: Key) { if c.Undecodable? then c.key else c.tool.key }

  /* ---------------------------------------------------------------- registering one contract */

  /** A known, unrejected version keeps its body: a different one is refused, the same one changes nothing. */
  function Registered(records: Records, c: Contract): (r: Records) {
    match c
    case Undecodable(key, shell) => records[key := Record(shell, Rejected, false)]
    case Malformed(tool) =>
      if tool.key in records && records[tool.key].state != Rejected then records
        else records[tool.key := Record(tool, Rejected, false)]
    case Decoded(tool) =>
      if tool.key in records && records[tool.key].state != Rejected then records
        else records[tool.key := Record(tool, Pending, false)]
  }

  function RegisteredAll(records: Records, batch: seq<Contract>): (r: Records) {
    if batch == [] then records else Registered(RegisteredAll(records, batch[..|batch| - 1]), batch[|batch| - 1])
  }

  /* ---------------------------------------------------------------- companions and the fixed point */

  /** Whether one candidate version meets what a tool asks of its companion. */
  type Obligation = (Tool, string, Tool) -> bool

  predicate IsCandidate(records: Records, id: string, k: Key) {
    k in records && k.id == id && records[k].state != Rejected
  }

  /** Every companion has some unrejected version registered, and every such version meets the obligation. */
  predicate CompanionsResolved(records: Records, meets: Obligation, tool: Tool) {
    forall i :: 0 <= i < |tool.companions| ==> CompanionResolved(records, meets, tool, tool.companions[i])
  }

  predicate CompanionResolved(records: Records, meets: Obligation, tool: Tool, id: string) {
    && (exists k :: k in records && IsCandidate(records, id, k))
    && forall k :: k in records && IsCandidate(records, id, k) ==> meets(tool, id, records[k].tool)
  }

  predicate Admissible(records: Records, meets: Obligation, routable: string -> bool, r: Record) {
    CompanionsResolved(records, meets, r.tool) && (r.admitted || routable(r.tool.route))
  }

  /** The fixed point in closed form: each pending record is admitted if it is admissible as things stand. */
  function Resolved(records: Records, meets: Obligation, routable: string -> bool): (r: Records) {
    map k | k in records :: Settle(records, meets, routable, records[k])
  }

  function Settle(records: Records, meets: Obligation, routable: string -> bool, r: Record): (q: Record) {
    if r.state == Pending && Admissible(records, meets, routable, r) then r.(state := Admitted, admitted := true) else r
  }

  /** Admitting changes nothing a companion check reads: it asks only what is not rejected. */
  ghost predicate SameUpToAdmission(a: Records, b: Records) {
    a.Keys == b.Keys && forall k :: k in a ==>
      b[k].tool == a[k].tool && (b[k].state == Rejected <==> a[k].state == Rejected)
  }

  lemma SameCompanions(a: Records, b: Records, meets: Obligation, tool: Tool)
    requires SameUpToAdmission(a, b)
    ensures CompanionsResolved(a, meets, tool) <==> CompanionsResolved(b, meets, tool)
  {
    forall id ensures CompanionResolved(a, meets, tool, id) <==> CompanionResolved(b, meets, tool, id) {
      assert forall k :: k in a ==> (IsCandidate(a, id, k) <==> IsCandidate(b, id, k));
    }
  }

  /** Some of the pending records have been settled, the others are as they were. */
  ghost predicate PartWay(was: Records, now: Records, meets: Obligation, routable: string -> bool) {
    now.Keys == was.Keys && forall k :: k in was ==> now[k] == was[k] || now[k] == Settle(was, meets, routable, was[k])
  }

  lemma PartWayIsSame(was: Records, now: Records, meets: Obligation, routable: string -> bool)
    requires PartWay(was, now, meets, routable)
    ensures SameUpToAdmission(was, now)
  {
  }

  function PendingKeys(records: Records): (s: set<Key>) { set k | k in records && records[k].state == Pending }

  /**
   The loop: passes over the records in whatever order the map gives, until one changes nothing.
   It always ends, and always at the closed form, whatever the order.
   */
  method ResolvePending(was: Records, meets: Obligation, routable: string -> bool) returns (records: Records)
    ensures records == Resolved(was, meets, routable)
  {
    records := was;
    var changed := true;
    while changed
      invariant PartWay(was, records, meets, routable)
      invariant !changed ==> forall k :: k in was ==> records[k] == Settle(was, meets, routable, was[k])
      decreases |PendingKeys(records)|, changed
    {
      records, changed := OnePass(was, records, meets, routable);
    }
    assert records == Resolved(was, meets, routable);
  }

  method OnePass(ghost was: Records, before: Records, meets: Obligation, routable: string -> bool)
      returns (records: Records, changed: bool)
    requires PartWay(was, before, meets, routable)
    ensures PartWay(was, records, meets, routable)
    ensures changed ==> |PendingKeys(records)| < |PendingKeys(before)|
    ensures !changed ==> records == before && forall k :: k in was ==>
      records[k] == Settle(was, meets, routable, was[k])
  {
    records, changed := before, false;
    var left := before.Keys;
    while left != {}
      invariant left <= before.Keys && PartWay(was, records, meets, routable)
      invariant PendingKeys(records) <= PendingKeys(before)
      invariant changed ==> PendingKeys(records) < PendingKeys(before)
      invariant !changed ==> records == before && forall k :: k in was && k !in left ==>
        records[k] == Settle(was, meets, routable, was[k])
      decreases left
    {
      var k :| k in left;
      left := left - {k};
      var r := records[k];
      PartWayIsSame(was, records, meets, routable);
      SameCompanions(was, records, meets, r.tool);
      if r.state == Pending && CompanionsResolved(records, meets, r.tool) && (r.admitted || routable(r.tool.route)) {
        ghost var pending := PendingKeys(records);
        records := records[k := r.(state := Admitted, admitted := true)];
        assert k in pending && k !in PendingKeys(records);
        changed := true;
      }
    }
    if changed { FiniteSets.SmallerSet(PendingKeys(records), PendingKeys(before)); }
  }

  /* ---------------------------------------------------------------- building a document */

  predicate KeyBefore(a: Key, b: Key) {
    CanonicalText.Before(a.id, b.id) || (a.id == b.id && CanonicalText.Before(a.version, b.version))
  }

  lemma KeyTotal(a: Key, b: Key)
    ensures a == b || KeyBefore(a, b) || KeyBefore(b, a)
    ensures !(KeyBefore(a, b) && KeyBefore(b, a))
  {
    hide CanonicalText.Before;
    CanonicalText.BeforeTotal(a.id, b.id);
    CanonicalText.BeforeTotal(a.version, b.version);
  }

  lemma KeyTrans(a: Key, b: Key, c: Key)
    requires KeyBefore(a, b) && KeyBefore(b, c)
    ensures KeyBefore(a, c)
  {
    hide CanonicalText.Before;
    CanonicalText.BeforeTotal(a.id, b.id);
    CanonicalText.BeforeTotal(b.id, c.id);
    if a.id != b.id && b.id != c.id { CanonicalText.BeforeTrans(a.id, b.id, c.id); }
    if a.id == b.id && b.id == c.id { CanonicalText.BeforeTrans(a.version, b.version, c.version); }
  }

  predicate ToolBefore(a: Tool, b: Tool) { KeyBefore(a.key, b.key) }

  lemma ToolsAreOrdered()
    ensures Sorting.IsOrder(ToolBefore)
  {
    forall a, b: Tool | ToolBefore(a, b) ensures !ToolBefore(b, a) {
      hide KeyBefore;
      KeyTotal(a.key, b.key);
    }
    forall a, b, c: Tool | ToolBefore(a, c) ensures ToolBefore(a, b) || ToolBefore(b, c) {
      hide KeyBefore;
      KeyTotal(a.key, b.key);
      KeyTotal(b.key, c.key);
      if KeyBefore(b.key, a.key) { KeyTrans(b.key, a.key, c.key); }
    }
  }

  ghost predicate Ascending(ts: seq<Tool>) { Sorting.Ascending(ts, ToolBefore) }

  ghost predicate DistinctKeys(ts: seq<Tool>) { forall i, j :: 0 <= i < j < |ts| ==> ts[i].key != ts[j].key }

  /** The document of a view: its tools in key order. */
  function Build(ts: seq<Tool>): (r: seq<Tool>) { Sorting.Sort(ts, ToolBefore) }

  lemma DistinctAreApart(ts: seq<Tool>)
    requires DistinctKeys(ts)
    ensures Sorting.Apart(ts, ToolBefore)
  {
    hide KeyBefore;
    forall i, j | 0 <= i < j < |ts| ensures ToolBefore(ts[i], ts[j]) || ToolBefore(ts[j], ts[i]) {
      KeyTotal(ts[i].key, ts[j].key);
    }
  }

  lemma BuildIs(ts: seq<Tool>)
    requires DistinctKeys(ts)
    ensures Ascending(Build(ts)) && forall u :: u in Build(ts) <==> u in ts
  {
    hide Sorting.Sort;
    ToolsAreOrdered();
    DistinctAreApart(ts);
    Sorting.SortAscends(ts, ToolBefore);
    Sorting.SortMembers(ts, ToolBefore);
  }

  /** The document depends on which contracts are admitted, never on the order services started in. */
  lemma BuildIsOrderFree(a: seq<Tool>, b: seq<Tool>)
    requires DistinctKeys(a) && DistinctKeys(b) && forall u :: u in a <==> u in b
    ensures Build(a) == Build(b)
  {
    hide Sorting.Sort, Sorting.IsOrder, Sorting.Apart;
    ToolsAreOrdered();
    DistinctAreApart(a);
    DistinctAreApart(b);
    Sorting.SortOfPermutation(a, b, ToolBefore);
  }

  /* ---------------------------------------------------------------- the registry */

  type Document = seq<Tool>

  /** Unrejected records are filed under their own key. */
  ghost predicate WellKeyed(records: Records) {
    forall k :: k in records && records[k].state != Rejected ==> records[k].tool.key == k
  }

  predicate IsAdmitted(records: Records, t: Tool) {
    t.key in records && records[t.key].state == Admitted && records[t.key].tool == t
  }

  /** The one document of an admitted set. */
  ghost predicate IsDocument(records: Records, doc: Document) {
    Ascending(doc) && forall t :: t in doc <==> IsAdmitted(records, t)
  }

  /** Which blob a document is stored under. */
  type Digest = Document -> string

  class Registry {
    var records: Records
    var current: Option<Document>
    var store: map<string, Document>
    const digest: Digest

    /** What a reader of the current view can rely on: its document is behind its digest. */
    ghost predicate Valid()
      reads this
    {
      WellKeyed(records) && (current.Some? ==>
        digest(current.value) in store && store[digest(current.value)] == current.value)
    }

    constructor (digest: Digest)
      ensures Valid() && records == map[] && current == None && store == map[] && this.digest == digest
    {
      this.digest := digest;
      records, current, store := map[], None, map[];
    }

    method Register(batch: seq<Contract>, meets: Obligation, routable: string -> bool, compiles: bool, stores: bool)
        returns (ok: bool)
      requires Valid()
      modifies this
      ensures Valid() && records == Resolved(RegisteredAll(old(records), batch), meets, routable)
      ensures Publishes(records, digest, old(current), old(store), compiles && stores, current, store, ok)
    {
      for i := 0 to |batch|
        invariant records == RegisteredAll(old(records), batch[..i]) && WellKeyed(records)
        invariant current == old(current) && store == old(store)
      {
        assert batch[..i + 1][..i] == batch[..i];
        records := Registered(records, batch[i]);
      }
      assert batch[..|batch|] == batch;
      ok := ResolveAndPublish(meets, routable, compiles, stores);
    }

    method Resolve(meets: Obligation, routable: string -> bool, compiles: bool, stores: bool) returns (ok: bool)
      requires Valid()
      modifies this
      ensures Valid() && records == Resolved(old(records), meets, routable)
      ensures Publishes(records, digest, old(current), old(store), compiles && stores, current, store, ok)
    {
      ok := ResolveAndPublish(meets, routable, compiles, stores);
    }

    /** The blob is written before the pointer moves. */
    method ResolveAndPublish(meets: Obligation, routable: string -> bool, compiles: bool, stores: bool)
        returns (ok: bool)
      requires Valid()
      modifies this
      ensures Valid() && records == Resolved(old(records), meets, routable)
      ensures Publishes(records, digest, old(current), old(store), compiles && stores, current, store, ok)
    {
      var resolved := ResolvePending(records, meets, routable);
      records := resolved;
      var admitted := ListAdmitted(records);
      BuildIsDocument(records, admitted);
      var doc := Build(admitted);
      if current.Some? && digest(current.value) == digest(doc) { return true; }
      if !compiles || !stores { return false; }
      store := store[digest(doc) := doc];
      current := Some(doc);
      ok := true;
    }
  }

  /**
   What one publication does: nothing when the digest is the same or a step failed, else the new document; `ok`
   tells success.
   */
  ghost predicate Publishes(records: Records, digest: Digest, current: Option<Document>, store: map<string, Document>,
      works: bool,
                            nextCurrent: Option<Document>, nextStore: map<string, Document>, ok: bool) {
    exists doc :: IsDocument(records, doc) &&
      var same := current.Some? && digest(current.value) == digest(doc);
      && ok == (same || works)
      && if same || !works then nextCurrent == current && nextStore == store
         else nextCurrent == Some(doc) && nextStore == store[digest(doc) := doc]
  }

  /** The admitted tools, in whatever order the map gives. */
  method ListAdmitted(records: Records) returns (ts: seq<Tool>)
    requires WellKeyed(records)
    ensures DistinctKeys(ts) && forall t :: t in ts <==> IsAdmitted(records, t)
  {
    ts := [];
    var left := records.Keys;
    while left != {}
      invariant left <= records.Keys && DistinctKeys(ts)
      invariant forall t :: t in ts <==> IsAdmitted(records, t) && t.key !in left
      decreases left
    {
      var k :| k in left;
      left := left - {k};
      if records[k].state == Admitted {
        forall i | 0 <= i < |ts| ensures ts[i].key != k { assert ts[i] in ts; }
        ts := ts + [records[k].tool];
      }
    }
  }

  lemma {:induction false} BuildIsDocument(records: Records, ts: seq<Tool>)
    requires DistinctKeys(ts) && forall t :: t in ts <==> IsAdmitted(records, t)
    ensures IsDocument(records, Build(ts))
  {
    hide Build;
    BuildIs(ts);
  }

  /* ---------------------------------------------------------------- immutability over lives */

  /** Some contract of this batch claims this key and cannot even be decoded. */
  predicate Spoils(batch: seq<Contract>, k: Key) {
    exists i :: 0 <= i < |batch| && batch[i].Undecodable? && batch[i].key == k
  }

  /**
   Registering a batch leaves an admitted contract exactly as it was, and otherwise unadmits it: exactly unless the
   batch spoils its key.
   */
  lemma {:induction false} BatchKeepsExactly(records: Records, batch: seq<Contract>, k: Key)
    requires k in records && records[k].state == Admitted
    ensures k in RegisteredAll(records, batch)
    ensures if Spoils(batch, k) then RegisteredAll(records, batch)[k].state != Admitted
      else RegisteredAll(records, batch)[k] == records[k]
  {
    if batch != [] {
      var n := |batch| - 1;
      BatchKeepsExactly(records, batch[..n], k);
      assert batch[n].Undecodable? && batch[n].key == k ==> Spoils(batch, k);
      if Spoils(batch[..n], k) {
        var i :| 0 <= i < n && batch[..n][i].Undecodable? && batch[..n][i].key == k;
        assert batch[i].Undecodable? && batch[i].key == k;
      } else if Spoils(batch, k) {
        var i :| 0 <= i < |batch| && batch[i].Undecodable? && batch[i].key == k;
        assert i < n ==> batch[..n][i] == batch[i];
      }
    }
  }

  datatype Snapshot = Snapshot(records: Records, current: Option<Document>, store: map<string, Document>)

  datatype Call = Call(batch: seq<Contract>, meets: Obligation, routable: string -> bool, works: bool)

  ghost predicate Serves(digest: Digest, a: Snapshot, c: Call, b: Snapshot) {
    && b.records == Resolved(RegisteredAll(a.records, c.batch), c.meets, c.routable)
    && exists ok :: Publishes(b.records, digest, a.current, a.store, c.works, b.current, b.store, ok)
  }

  /** A registry's life: any registrations, with any health and any failures to publish. */
  ghost predicate IsLife(digest: Digest, life: seq<Snapshot>, calls: seq<Call>) {
    && |life| == |calls| + 1 && life[0] == Snapshot(map[], None, map[])
    && forall k :: 0 <= k < |calls| ==> Serves(digest, life[k], calls[k], life[k + 1])
  }

  ghost predicate InView(a: Snapshot, t: Tool) { a.current.Some? && t in a.current.value }

  lemma ServeKeeps(digest: Digest, a: Snapshot, c: Call, b: Snapshot, t: Tool)
    requires Serves(digest, a, c, b) && IsAdmitted(a.records, t) && !Spoils(c.batch, t.key)
    ensures IsAdmitted(b.records, t) && (InView(a, t) ==> InView(b, t))
  {
    BatchKeepsExactly(a.records, c.batch, t.key);
  }

  /**
   Published contracts are immutable, tool by tool: whatever else is registered, whatever happens to
   health or to publication, a tool once admitted keeps its body, stays admitted and stays in every
   later view, as long as no undecodable contract claims its own key.
   */
  lemma {:induction false} AdmittedStays(digest: Digest, life: seq<Snapshot>, calls: seq<Call>, i: nat, j: nat, t: Tool)
    requires IsLife(digest, life, calls) && i <= j < |life| && IsAdmitted(life[i].records, t)
    requires forall k :: i <= k < j ==> !Spoils(calls[k].batch, t.key)
    ensures IsAdmitted(life[j].records, t) && (InView(life[i], t) ==> InView(life[j], t))
    decreases j
  {
    if i < j {
      AdmittedStays(digest, life, calls, i, j - 1, t);
      ServeKeeps(digest, life[j - 1], calls[j - 1], life[j], t);
    }
  }

  /** Where no key is ever spoiled, what one view holds every later view holds. */
  lemma ViewsOnlyGrow(digest: Digest, life: seq<Snapshot>, calls: seq<Call>, i: nat, j: nat)
    requires IsLife(digest, life, calls) && i <= j < |life| && forall k, key :: 0 <= k < |calls| ==>
      !Spoils(calls[k].batch, key)
    ensures forall t :: IsAdmitted(life[i].records, t) ==> IsAdmitted(life[j].records, t)
    ensures forall t :: InView(life[i], t) ==> InView(life[j], t)
  {
    hide Serves, Spoils;
    forall t | InView(life[i], t) ensures IsAdmitted(life[i].records, t) { ViewIsAdmitted(digest, life, calls, i, t); }
    forall t | IsAdmitted(life[i].records, t)
      ensures IsAdmitted(life[j].records, t) && (InView(life[i], t) ==> InView(life[j], t)) {
      AdmittedStays(digest, life, calls, i, j, t);
    }
  }

  lemma {:induction false} ViewIsAdmitted(digest: Digest, life: seq<Snapshot>, calls: seq<Call>, j: nat, t: Tool)
    requires IsLife(digest, life, calls) && j < |life| && InView(life[j], t)
    requires forall k, key :: 0 <= k < |calls| ==> !Spoils(calls[k].batch, key)
    ensures IsAdmitted(life[j].records, t)
  {
    hide Spoils;
    if j > 0 {
      if InView(life[j - 1], t) {
        ViewIsAdmitted(digest, life, calls, j - 1, t);
        ServeKeeps(digest, life[j - 1], calls[j - 1], life[j], t);
      } else {
        assert Serves(digest, life[j - 1], calls[j - 1], life[j]);
      }
    }
  }

  /* ---------------------------------------------------------------- what readers resolve */

  ghost predicate Injective(digest: Digest) { forall a, b :: digest(a) == digest(b) ==> a == b }

  /** The document is behind its digest. */
  ghost predicate IsStored(digest: Digest, a: Snapshot, doc: Document) {
    digest(doc) in a.store && a.store[digest(doc)] == doc
  }

  /** The current view's document is always in the store; under an injective digest so is every view ever published. */
  lemma {:induction false} ViewsStayStored(digest: Digest, life: seq<Snapshot>, calls: seq<Call>, i: nat, j: nat)
    requires IsLife(digest, life, calls) && i <= j < |life| && life[i].current.Some?
    ensures i == j || Injective(digest) ==> IsStored(digest, life[j], life[i].current.value)
    decreases j
  {
    if j > 0 {
      assert Serves(digest, life[j - 1], calls[j - 1], life[j]);
      if i < j {
        ViewsStayStored(digest, life, calls, i, j - 1);
      } else if life[j - 1].current.Some? {
        ViewsStayStored(digest, life, calls, j - 1, j - 1);
      }
    }
  }

  /* ---------------------------------------------------------------- a published tool leaves the view */

  const Anything: Obligation := (t: Tool, id: string, u: Tool) => true
  const Everywhere: string -> bool := (route: string) => true

  function Registers(c: Contract): (call: Call) { Call([c], Anything, Everywhere, true) }

  lemma {:induction false} OneRegistered(records: Records, c: Contract)
    ensures RegisteredAll(records, [c]) == Registered(records, c)
  {
    assert [c][..0] == [];
  }

  /**
   A tool without companions is registered and published; a registration under its key that cannot be decoded takes
   it out of the view.
   */
  lemma PublishedToolLeaves(digest: Digest, t: Tool, shell: Tool) returns (life: seq<Snapshot>)
    requires t.companions == [] && digest([]) != digest([t])
    ensures IsLife(digest, life, [Registers(Decoded(t)), Registers(Undecodable(t.key, shell))])
    ensures InView(life[1], t) && IsAdmitted(life[1].records, t) && life[2].current == Some([])
  {
    var empty := Snapshot(map[], None, map[]);
    var one := Snapshot(map[t.key := Record(t, Admitted, true)], Some([t]), map[digest([t]) := [t]]);
    var none := Snapshot(map[t.key := Record(shell, Rejected, false)], Some([]),
      map[digest([t]) := [t], digest([]) := []]);
    OneRegistered(map[], Decoded(t));
    OneRegistered(one.records, Undecodable(t.key, shell));
    var pending := Registered(map[], Decoded(t));
    assert Resolved(pending, Anything, Everywhere) == one.records by {
      assert Admissible(pending, Anything, Everywhere, pending[t.key]);
    }
    assert IsDocument(one.records, [t]);
    assert Publishes(one.records, digest, None, map[], true, one.current, one.store, true);
    assert Resolved(none.records, Anything, Everywhere) == none.records;
    assert IsDocument(none.records, []);
    assert one.store[digest([]) := []] == none.store;
    assert Publishes(none.records, digest, one.current, one.store, true, none.current, none.store, true);
    life := [empty, one, none];
  }
}
