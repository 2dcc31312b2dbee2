/** What the planner's surface shows of a vertex, by position. */
module SurfaceMeaning {
  import opened EventLog
  import opened LogPositions
  import F = ForkSlice

  /** The events of a vertex's execution. */
  function Executions(v: Id): Kind {
    (e: Event) =>
      (e.body.Started? || e.body.Succeeded? || e.body.Failed? || e.body.Retried?) && e.body.vertex == v
  }

  /** The successes of a vertex that say whether a condition matched. */
  function Tellings(v: Id): Kind { (e: Event) => e.body.Succeeded? && e.body.vertex == v && e.body.told != Unsaid }

  /** The status is that of the last execution event since the vertex was created at `c`, none if there is none. */
  ghost predicate ShowsStatus(log: Log, v: Id, c: int, s: F.Status) {
    && (QuietSince(log, Executions(v), c) <==> s == F.NotRun)
    && forall i :: LastSince(log, Executions(v), c, i) ==>
      && (s == F.Status.Started <==> log[i].body.Started?)
      && (s == F.Status.Succeeded <==> log[i].body.Succeeded?)
      && (s == F.Status.Failed <==> log[i].body.Failed?)
      && (s == F.Status.Retried <==> log[i].body.Retried?)
  }

  /** The condition is what the last success since `c` that spoke of one said. */
  ghost predicate ShowsMatch(log: Log, v: Id, c: int, m: Option<nat>) {
    && (QuietSince(log, Tellings(v), c) ==> m == None)
    && forall i :: LastSince(log, Tellings(v), c, i) ==>
      m == match log[i].body.told case Matched(condition) => Some(condition) case _ => None
  }

  /** The view of a vertex last created at `c`. */
  ghost predicate IsViewFrom(log: Log, v: Id, c: int, w: F.View) {
    && Last(log, Creations(v), c)
    && w.parents == log[c].body.parents && w.role == log[c].body.role && w.createdSeq == log[c].runSeq
    && ShowsStatus(log, v, c, w.status) && ShowsMatch(log, v, c, w.matched)
  }

  ghost predicate IsView(log: Log, v: Id, w: F.View) { exists c :: IsViewFrom(log, v, c, w) }

  lemma {:induction false} ViewIs(log: Log, v: Id)
    ensures F.ViewOf(log, v).None? <==> Never(log, Creations(v))
    ensures F.ViewOf(log, v).Some? ==> IsView(log, v, F.ViewOf(log, v).value)
  {
    if log != [] {
      var n := |log| - 1;
      var e, before := log[n], F.ViewOf(log[..n], v);
      ViewIs(log[..n], v);
      OneMore(log, Creations(v));
      if Creations(v)(e) {
        assert IsViewFrom(log, v, n, F.ViewOf(log, v).value);
      } else if before.Some? {
        ViewStep(log, v, before.value);
      }
    }
  }

  lemma ViewStep(log: Log, v: Id, before: F.View)
    requires log != [] && IsView(log[..|log| - 1], v, before) && !Creations(v)(log[|log| - 1])
    ensures var r := F.See(Some(before), log[|log| - 1], v); r.Some? && IsView(log, v, r.value)
  {
    var n := |log| - 1;
    var c :| IsViewFrom(log[..n], v, c, before);
    hide ShowsStatus, ShowsMatch, QuietSince;
    StatusStep(log, v, c, before.status);
    MatchStep(log, v, c, before.matched);
    LastStays(log, Creations(v), c);
    assert IsViewFrom(log, v, c, F.See(Some(before), log[n], v).value);
  }

  lemma StatusStep(log: Log, v: Id, c: int, s: F.Status)
    requires log != [] && 0 <= c < |log| - 1 && ShowsStatus(log[..|log| - 1], v, c, s)
    ensures var e := log[|log| - 1];
      ShowsStatus(log, v, c, if Executions(v)(e) then F.StatusOf(e.body) else s)
  {
    hide QuietSince, LastSince;
    SinceStep(log, Executions(v), c);
    LastInside(log[..|log| - 1], Executions(v), c);
  }

  lemma MatchStep(log: Log, v: Id, c: int, m: Option<nat>)
    requires log != [] && 0 <= c < |log| - 1 && ShowsMatch(log[..|log| - 1], v, c, m)
    ensures var e := log[|log| - 1];
      ShowsMatch(log, v, c, if Executions(v)(e) then F.MatchAfter(m, e.body) else m)
  {
    hide QuietSince, LastSince;
    SinceStep(log, Tellings(v), c);
    LastInside(log[..|log| - 1], Tellings(v), c);
  }

  /** The surface: the created vertices nothing discarded, each as its own events since its last creation left it. */
  lemma SurfaceExactly(log: Log, vertices: map<Id, F.View>)
    requires F.IsSurface(log, vertices)
    ensures forall v :: v in vertices <==> !Never(log, Creations(v)) && Never(log, Discards(v))
    ensures forall v :: v in vertices ==> IsView(log, v, vertices[v])
  {
    hide IsView, Never, F.ViewOf, Hidden;
    forall v ensures v in vertices <==> !Never(log, Creations(v)) && Never(log, Discards(v)) {
      ViewIs(log, v);
      HiddenIs(log, v);
    }
    forall v | v in vertices ensures IsView(log, v, vertices[v]) { ViewIs(log, v); }
  }
}
