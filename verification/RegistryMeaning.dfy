/**
 Which tools a registry has admitted, by what was registered with it and when.

 A registry's records are read off the contracts in the order they came; admission off the calls:
 a tool is admitted by the first call at which it stands registered, its route is up and its
 companions are in order, and stays so until its key is spoiled.
 */
module RegistryMeaning {
  import opened ToolRegistry
  import CanonicalMeaning

  /** Every contract of these calls, in the order they came. */
  function AllContracts(calls: seq<Call>): (cs: seq<Contract>) {
    if calls == [] then [] else AllContracts(calls[..|calls| - 1]) + calls[|calls| - 1].batch
  }

  predicate Breaks(c: Contract, k: Key) { c.Undecodable? && c.key == k }

  /** The contract at `p` is the one a key stands by: nothing broke the key since, and it was not taken before. */
  ghost predicate StandsBy(cs: seq<Contract>, p: int, t: Tool) {
    && 0 <= p < |cs| && cs[p] == Decoded(t)
    && (forall q :: p < q < |cs| ==> !Breaks(cs[q], t.key))
    && forall q :: 0 <= q < p && cs[q].Decoded? && cs[q].tool.key == t.key ==>
      exists r :: q < r < p && Breaks(cs[r], t.key)
  }

  ghost predicate Standing(cs: seq<Contract>, t: Tool) { exists p :: StandsBy(cs, p, t) }

  ghost predicate Holds(records: Records, k: Key, t: Tool) {
    k in records && records[k].state != Rejected && records[k].tool == t
  }

  /** The records hold what stands, whatever has been admitted meanwhile. */
  ghost predicate Recorded(records: Records, cs: seq<Contract>) {
    && WellKeyed(records)
    && (forall k, t :: Holds(records, k, t) <==> t.key == k && Standing(cs, t))
    && forall k :: k in records && records[k].state == Pending ==> !records[k].admitted
  }

  /** Some contract for this key has been accepted and nothing broke it since. */
  ghost predicate Taken(cs: seq<Contract>, k: Key) { exists t: Tool :: t.key == k && Standing(cs, t) }

  lemma {:induction false} TakenIs(cs: seq<Contract>, k: Key)
    ensures Taken(cs, k) <==>
      exists q :: 0 <= q < |cs| && cs[q].Decoded? && cs[q].tool.key == k &&
        forall r :: q < r < |cs| ==> !Breaks(cs[r], k)
  {
    if q :| 0 <= q < |cs| && cs[q].Decoded? && cs[q].tool.key == k && forall r :: q < r < |cs| ==> !Breaks(cs[r], k) {
      var p := FirstTaken(cs, k, q);
    }
    if Taken(cs, k) {
      var t: Tool :| t.key == k && Standing(cs, t);
      var p :| StandsBy(cs, p, t);
    }
  }

  lemma {:induction false} FirstTaken(cs: seq<Contract>, k: Key, q: nat) returns (p: nat)
    requires q < |cs| && cs[q].Decoded? && cs[q].tool.key == k && forall r :: q < r < |cs| ==> !Breaks(cs[r], k)
    ensures p < |cs| && cs[p].Decoded? && cs[p].tool.key == k && StandsBy(cs, p, cs[p].tool)
    decreases q
  {
    if i :| 0 <= i < q && cs[i].Decoded? && cs[i].tool.key == k && forall r :: i < r < q ==> !Breaks(cs[r], k) {
      assert forall r :: i < r < |cs| ==> !Breaks(cs[r], k);
      p := FirstTaken(cs, k, i);
    } else {
      p := q;
    }
  }

  /** One more contract. */
  lemma StandingStep(cs: seq<Contract>, c: Contract, t: Tool)
    ensures Standing(cs + [c], t) <==>
      (Standing(cs, t) && !Breaks(c, t.key)) || (c == Decoded(t) && !Taken(cs, t.key))
  {
    var next := cs + [c];
    TakenIs(cs, t.key);
    if Standing(cs, t) && !Breaks(c, t.key) {
      var p :| StandsBy(cs, p, t);
      StandsLater(cs, c, p, t);
    }
    if c == Decoded(t) && !Taken(cs, t.key) {
      forall q | 0 <= q < |cs| && next[q].Decoded? && next[q].tool.key == t.key
        ensures exists r :: q < r < |cs| && Breaks(next[r], t.key)
      {
        var r :| q < r < |cs| && Breaks(cs[r], t.key);
        assert Breaks(next[r], t.key);
      }
      assert StandsBy(next, |cs|, t);
    }
    if Standing(next, t) {
      var p :| StandsBy(next, p, t);
      if p < |cs| {
        assert next[|cs|] == c;
        StandsEarlier(cs, c, p, t);
      } else {
        LastTakes(cs, c, t);
      }
    }
  }

  lemma StandsLater(cs: seq<Contract>, c: Contract, p: nat, t: Tool)
    requires StandsBy(cs, p, t) && !Breaks(c, t.key)
    ensures StandsBy(cs + [c], p, t)
  {
    var next := cs + [c];
    assert next[|cs|] == c && forall q :: 0 <= q < |cs| ==> next[q] == cs[q];
    forall q | 0 <= q < p && next[q].Decoded? && next[q].tool.key == t.key
      ensures exists r :: q < r < p && Breaks(next[r], t.key)
    {
      var r :| q < r < p && Breaks(cs[r], t.key);
      assert Breaks(next[r], t.key);
    }
  }

  lemma StandsEarlier(cs: seq<Contract>, c: Contract, p: nat, t: Tool)
    requires p < |cs| && StandsBy(cs + [c], p, t)
    ensures StandsBy(cs, p, t) && !Breaks(c, t.key)
  {
    var next := cs + [c];
    assert next[|cs|] == c && forall q :: 0 <= q < |cs| ==> next[q] == cs[q];
    forall q | 0 <= q < p && cs[q].Decoded? && cs[q].tool.key == t.key
      ensures exists r :: q < r < p && Breaks(cs[r], t.key)
    {
      var r :| q < r < p && Breaks(next[r], t.key);
      assert Breaks(cs[r], t.key);
    }
  }

  lemma LastTakes(cs: seq<Contract>, c: Contract, t: Tool)
    requires StandsBy(cs + [c], |cs|, t)
    ensures c == Decoded(t) && !Taken(cs, t.key)
  {
    var next := cs + [c];
    TakenIs(cs, t.key);
    forall q | 0 <= q < |cs| && cs[q].Decoded? && cs[q].tool.key == t.key
      ensures exists r :: q < r < |cs| && Breaks(cs[r], t.key)
    {
      assert next[q] == cs[q];
      var r :| q < r < |cs| && Breaks(next[r], t.key);
      assert Breaks(cs[r], t.key);
    }
  }

  /* ---------------------------------------------------------------- the records */

  lemma HeldIsTaken(records: Records, cs: seq<Contract>, k: Key)
    requires Recorded(records, cs)
    ensures (k in records && records[k].state != Rejected) <==> Taken(cs, k)
  {
    hide Standing;
    if k in records && records[k].state != Rejected { assert Holds(records, k, records[k].tool); }
    if Taken(cs, k) {
      var t: Tool :| t.key == k && Standing(cs, t);
      assert Holds(records, k, t);
    }
  }

  lemma RegisterOne(records: Records, cs: seq<Contract>, c: Contract)
    requires Recorded(records, cs)
    ensures Recorded(Registered(records, c), cs + [c])
  {
    hide Standing, Taken;
    var next := Registered(records, c);
    HeldIsTaken(records, cs, KeyOf(c));
    forall k, t ensures Holds(next, k, t) <==> t.key == k && Standing(cs + [c], t) {
      StandingStep(cs, c, t);
      assert Holds(records, k, t) <==> t.key == k && Standing(cs, t);
    }
  }

  lemma {:induction false} RegisterBatch(records: Records, cs: seq<Contract>, batch: seq<Contract>)
    requires Recorded(records, cs)
    ensures Recorded(RegisteredAll(records, batch), cs + batch)
  {
    hide Recorded;
    if batch == [] {
      assert cs + batch == cs;
    } else {
      var n := |batch| - 1;
      RegisterBatch(records, cs, batch[..n]);
      RegisterOne(RegisteredAll(records, batch[..n]), cs + batch[..n], batch[n]);
      assert cs + batch == cs + batch[..n] + [batch[n]];
    }
  }

  lemma ResolveKeeps(records: Records, cs: seq<Contract>, meets: Obligation, routable: string -> bool)
    requires Recorded(records, cs)
    ensures Recorded(Resolved(records, meets, routable), cs)
  {
    hide Standing, Admissible;
    var next := Resolved(records, meets, routable);
    forall k, t ensures Holds(next, k, t) <==> Holds(records, k, t) {}
  }

  /** At every point of every life the records hold exactly what stands. */
  lemma {:induction false} RecordsExactly(digest: Digest, life: seq<Snapshot>, calls: seq<Call>, j: nat)
    requires IsLife(digest, life, calls) && j < |life|
    ensures Recorded(life[j].records, AllContracts(calls[..j]))
  {
    if j > 0 {
      RecordsExactly(digest, life, calls, j - 1);
      var c := calls[j - 1];
      assert Serves(digest, life[j - 1], c, life[j]);
      assert calls[..j][..j - 1] == calls[..j - 1];
      hide Recorded;
      RegisterBatch(life[j - 1].records, AllContracts(calls[..j - 1]), c.batch);
      ResolveKeeps(RegisteredAll(life[j - 1].records, c.batch), AllContracts(calls[..j]), c.meets, c.routable);
    }
  }

  /* ---------------------------------------------------------------- admission */

  /**
   Call `i` can admit a tool: by then it stands registered, its route is up, and each of its companions has some
   version standing, every one of which meets what the tool asks of it.
   */
  ghost predicate CanAdmit(calls: seq<Call>, i: int, t: Tool)
    requires 0 <= i < |calls|
  {
    var cs := AllContracts(calls[..i + 1]);
    && Standing(cs, t)
    && calls[i].routable(t.route)
    && forall n :: 0 <= n < |t.companions| ==>
      && (exists u: Tool :: u.key.id == t.companions[n] && Standing(cs, u))
      && forall u: Tool :: u.key.id == t.companions[n] && Standing(cs, u) ==> calls[i].meets(t, t.companions[n], u)
  }

  lemma CompanionIs(records: Records, cs: seq<Contract>, meets: Obligation, t: Tool, id: string)
    requires Recorded(records, cs)
    ensures CompanionResolved(records, meets, t, id) <==>
      && (exists u: Tool :: u.key.id == id && Standing(cs, u))
      && forall u: Tool :: u.key.id == id && Standing(cs, u) ==> meets(t, id, u)
  {
    hide Standing;
    forall k ensures IsCandidate(records, id, k) <==>
      k.id == id && k in records && records[k].tool.key == k && Standing(cs, records[k].tool)
    {
      if k in records && records[k].state != Rejected { assert Holds(records, k, records[k].tool); }
      if k in records && records[k].tool.key == k && Standing(cs, records[k].tool) {
        assert Holds(records, k, records[k].tool);
      }
    }
    forall u: Tool | u.key.id == id && Standing(cs, u)
      ensures IsCandidate(records, id, u.key) && records[u.key].tool == u
    {
      assert Holds(records, u.key, u);
    }
  }

  /** Registering admits nothing. */
  lemma {:induction false} RegisteringAdmitsNothing(records: Records, batch: seq<Contract>, t: Tool)
    requires IsAdmitted(RegisteredAll(records, batch), t)
    ensures IsAdmitted(records, t) && !Spoils(batch, t.key)
  {
    if batch != [] {
      RegisteringAdmitsNothing(records, batch[..|batch| - 1], t);
      BatchKeepsExactly(records, batch, t.key);
    }
  }

  lemma AdmissionStep(digest: Digest, life: seq<Snapshot>, calls: seq<Call>, i: nat, t: Tool)
    requires IsLife(digest, life, calls) && i < |calls|
    ensures IsAdmitted(life[i + 1].records, t) <==>
      CanAdmit(calls, i, t) || (IsAdmitted(life[i].records, t) && !Spoils(calls[i].batch, t.key))
  {
    hide Recorded, Standing, RegisteredAll, CompanionResolved, Spoils;
    RecordsExactly(digest, life, calls, i);
    var c, cs := calls[i], AllContracts(calls[..i + 1]);
    assert calls[..i + 1][..i] == calls[..i];
    var reg := RegisteredAll(life[i].records, c.batch);
    assert Serves(digest, life[i], c, life[i + 1]);
    RegisterBatch(life[i].records, AllContracts(calls[..i]), c.batch);
    forall n | 0 <= n < |t.companions| ensures CompanionResolved(reg, c.meets, t, t.companions[n]) <==>
      && (exists u: Tool :: u.key.id == t.companions[n] && Standing(cs, u))
      && forall u: Tool :: u.key.id == t.companions[n] && Standing(cs, u) ==> c.meets(t, t.companions[n], u)
    {
      CompanionIs(reg, cs, c.meets, t, t.companions[n]);
    }
    assert CompanionsResolved(reg, c.meets, t) && c.routable(t.route) && Standing(cs, t) <==> CanAdmit(calls, i, t);
    HeldAs(reg, cs, t);
    if IsAdmitted(reg, t) { RegisteringAdmitsNothing(life[i].records, c.batch, t); }
    if IsAdmitted(life[i].records, t) { BatchKeepsExactly(life[i].records, c.batch, t.key); }
  }

  lemma HeldAs(records: Records, cs: seq<Contract>, t: Tool)
    requires Recorded(records, cs)
    ensures Standing(cs, t) <==> Holds(records, t.key, t)
    ensures Holds(records, t.key, t) && records[t.key].state == Pending ==> !records[t.key].admitted
  {
    hide Standing;
    assert Holds(records, t.key, t) <==> t.key == t.key && Standing(cs, t);
  }

  /**
   Exactly the tools some call could admit, and whose key nothing has spoiled since, are admitted, over any life of
   registrations, health changes and failed publications.
   */
  lemma {:induction false} AdmittedExactly(digest: Digest, life: seq<Snapshot>, calls: seq<Call>, j: nat, t: Tool)
    requires IsLife(digest, life, calls) && j < |life|
    ensures IsAdmitted(life[j].records, t) <==>
      exists i :: 0 <= i < j && CanAdmit(calls, i, t) && forall k :: i < k < j ==> !Spoils(calls[k].batch, t.key)
  {
    hide CanAdmit, Spoils, Serves;
    if j > 0 {
      AdmittedExactly(digest, life, calls, j - 1, t);
      AdmissionStep(digest, life, calls, j - 1, t);
      if i :| 0 <= i < j - 1 && CanAdmit(calls, i, t) && forall k :: i < k < j - 1 ==> !Spoils(calls[k].batch, t.key) {
        if !Spoils(calls[j - 1].batch, t.key) {
          assert forall k :: i < k < j ==> !Spoils(calls[k].batch, t.key);
        }
      }
    }
  }

  /* ---------------------------------------------------------------- the order of a document */

  /** Tools by identifier, and versions of one tool by version. */
  ghost predicate Listed(doc: Document) {
    forall i, j :: 0 <= i < j < |doc| ==>
      || CanonicalMeaning.Precedes(doc[i].key.id, doc[j].key.id)
      || (doc[i].key.id == doc[j].key.id && CanonicalMeaning.Precedes(doc[i].key.version, doc[j].key.version))
  }

  lemma AscendingIsListed(doc: Document)
    requires Ascending(doc)
    ensures Listed(doc)
  {
    hide CanonicalMeaning.Precedes;
    forall i, j | 0 <= i < j < |doc| ensures
      || CanonicalMeaning.Precedes(doc[i].key.id, doc[j].key.id)
      || (doc[i].key.id == doc[j].key.id && CanonicalMeaning.Precedes(doc[i].key.version, doc[j].key.version))
    {
      assert ToolBefore(doc[i], doc[j]);
      CanonicalMeaning.BeforeExactly(doc[i].key.id, doc[j].key.id);
      CanonicalMeaning.BeforeExactly(doc[i].key.version, doc[j].key.version);
    }
  }

  /** Every view a registry ever shows lists its tools in this order. */
  lemma {:induction false} ViewsAreListed(digest: Digest, life: seq<Snapshot>, calls: seq<Call>, j: nat)
    requires IsLife(digest, life, calls) && j < |life| && life[j].current.Some?
    ensures Listed(life[j].current.value)
  {
    hide Listed, Ascending;
    if j > 0 {
      assert Serves(digest, life[j - 1], calls[j - 1], life[j]);
      if life[j].current == life[j - 1].current {
        ViewsAreListed(digest, life, calls, j - 1);
      } else {
        AscendingIsListed(life[j].current.value);
      }
    }
  }
}
