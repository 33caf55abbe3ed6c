/** Which segments sweeps have removed, told from the events of a run. */
module SweepHistory {
  import opened EdgeCache
  import opened Runs
  import Sweep

  /** The entry of a segment is in the cache now, and a sweep would remove it. */
  ghost predicate Doomed(c: Config, w: World, id: nat) {
    exists n :: n in w.cache && w.cache[n] == SegmentItem(id) && n !in Sweep.Kept(WorldView(w), w.clock, c.limits)
  }

  lemma SweepRecords(c: Config, w: World)
    ensures forall id: nat :: id in SweepCache(c, w).swept <==> id in w.swept || Doomed(c, w, id)
  {
    hide Sweep.Kept, WorldView;
  }

  lemma StepRecords(c: Config, w: World, e: Event)
    requires Ids(w)
    ensures forall id: nat ::
              id in Step(c, w, e).swept <==> id in w.swept || (e.SweepTick? && Doomed(c, w, id))
  {
    hide Step, SweepCache, Doomed, ListingsOf, FilesOf;
    StepHistory(c, w, e);
    if e.SweepTick? {
      SweepOrTick(c, w);
      SweepRecords(c, w);
    }
  }

  /** The event at `k` is a sweep that removes the entry of a segment. */
  ghost predicate SweptAt(c: Config, w0: World, es: seq<Event>, k: nat, id: nat)
    requires Ids(w0)
  {
    k < |es| && es[k].SweepTick? && Doomed(c, Run(c, w0, es[..k]), id)
  }

  lemma SweptAtSnoc(c: Config, w0: World, es: seq<Event>, e: Event, k: nat, id: nat)
    requires Ids(w0)
    ensures SweptAt(c, w0, es + [e], k, id) <==>
              SweptAt(c, w0, es, k, id) || (k == |es| && e.SweepTick? && Doomed(c, Run(c, w0, es), id))
  {
    hide Run, Doomed;
    if k <= |es| { assert (es + [e])[..k] == es[..k]; }
    assert es[..|es|] == es;
  }

  /** A segment counts as swept exactly when some sweep of the run found its entry in the cache and left it out. */
  lemma {:induction false} SweptIff(c: Config, w0: World, es: seq<Event>)
    requires Initial(w0)
    ensures Ids(w0)
    ensures forall id: nat :: id in Run(c, w0, es).swept <==> exists k: nat :: SweptAt(c, w0, es, k, id)
  {
    hide Run, Step, Doomed, SweptAt, Initial;
    InitialIds(w0);
    if es == [] {
      NothingSweptYet(c, w0);
    } else {
      var rest, e := es[..|es| - 1], es[|es| - 1];
      assert es == rest + [e];
      SweptIff(c, w0, rest);
      RunSnoc(c, w0, rest, e);
      StepRecords(c, Run(c, w0, rest), e);
      forall k: nat, id: nat
        ensures SweptAt(c, w0, es, k, id) <==>
                  SweptAt(c, w0, rest, k, id) || (k == |rest| && e.SweepTick? && Doomed(c, Run(c, w0, rest), id))
      {
        SweptAtSnoc(c, w0, rest, e, k, id);
      }
      forall id: nat ensures id in Run(c, w0, es).swept <==> exists k: nat :: SweptAt(c, w0, es, k, id) {
        var n: nat := |rest|;
        assert e.SweepTick? && Doomed(c, Run(c, w0, rest), id) ==> SweptAt(c, w0, es, n, id);
      }
    }
  }

  lemma NothingSweptYet(c: Config, w0: World)
    requires Initial(w0) && Ids(w0)
    ensures Run(c, w0, []).swept == {} && forall k: nat, id: nat :: !SweptAt(c, w0, [], k, id)
  {}
}
