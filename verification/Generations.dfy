/** Configuration generations: reference-counted objects of which the registry keeps the active one and, as
    long as somebody still uses it, the one before.
 */
module Generations {
  import opened Basics

  const REFERENCE_LIMIT: nat := UINT64_MAX

  datatype ReleaseStatus = ReleaseOk | ReleaseBad | ReleaseIo | ReleaseTime
  datatype CollectStatus = NothingRetired | Collected | StillRetained | CollectBad | CollectIo | CollectTime
  datatype PublishStatus = Published | Blocked | PublishBad | PublishIo | PublishTime

  class Generation {
    const identity: nat
    var references: nat
    /** How many connections and waiters hold this generation. */
    ghost var holders: nat
    ghost var destroyed: bool

    constructor (identity: nat)
      ensures this.identity == identity && references == 1 && holders == 0 && !destroyed
    {
      this.identity := identity;
      references, holders, destroyed := 1, 0, false;
    }

    method Retain() returns (ok: bool)
      modifies this`references
      ensures ok == (old(references) != REFERENCE_LIMIT)
              && references == if ok then old(references) + 1 else old(references)
    {
      if references == REFERENCE_LIMIT {
        return false;
      }
      references := references + 1;
      ok := true;
    }

    /** Gives one reference back; the last one destroys the generation. */
    method Release() returns (left: nat)
      modifies this`references, this`destroyed
      ensures left == references == (if old(references) == 0 then 0 else old(references) - 1)
      ensures destroyed == (old(destroyed) || old(references) == 1)
    {
      if references == 0 {
        return 0;
      }
      references := references - 1;
      if references == 0 {
        destroyed := true;
      }
      left := references;
    }
  }

  class Registry {
    var active: Generation?
    var retired: Generation?
    /** Every generation ever published here. */
    ghost var published: set<Generation>

    /** A generation is alive exactly while the registry keeps it, and counts the registry and its holders. */
    ghost predicate Counted(g: Generation)
      reads this, g
    {
      && (g.destroyed <==> g != active && g != retired)
      && (if g.destroyed then g.references == 0 && g.holders == 0 else g.references == 1 + g.holders)
    }

    ghost predicate Valid()
      reads this, published
    {
      && (active == null || active in published) && (retired == null || retired in published)
         && (published == {} <==> active == null)
      && (retired != null ==> active != null && retired.identity < active.identity)
      && (forall g :: g in published ==> Counted(g) && 0 < g.identity <= active.identity)
      && (forall g, h :: g in published && h in published && g.identity == h.identity ==> g == h)
    }

    constructor ()
      ensures Valid() && published == {} && active == null && retired == null
    {
      active, retired, published := null, null, {};
    }

    /** At most two generations are alive, whoever holds one of them. */
    lemma AtMostTwoAlive(alive: set<Generation>)
      requires Valid() && forall g :: g in alive ==> g in published && !g.destroyed
      ensures |alive| <= 2
    {
      if active != null && retired != null {
        assert alive <= {active, retired};
        SubsetSizes(alive, {active, retired});
      } else if active != null {
        assert alive <= {active};
        SubsetSizes(alive, {active});
      } else {
        assert alive == {};
      }
    }

    /** A generation somebody holds has not been destroyed. */
    lemma HeldIsAlive(g: Generation)
      requires Valid() && g in published && g.holders > 0
      ensures !g.destroyed && (g == active || g == retired) && g.references >= 2
    {
      assert Counted(g);
    }

    /** A connection or waiter starts using the active generation. */
    method ActiveRetain() returns (g: Generation?)
      requires Valid()
      modifies active
      ensures Valid()
      ensures g == if active == null || old(active.references) == REFERENCE_LIMIT then null else active
      ensures g != null ==> g.holders == old(g.holders) + 1
      ensures g == null && active != null ==>
              active.references == old(active.references) && active.holders == old(active.holders)
    {
      if active == null {
        return null;
      }
      assert Counted(active);
      var ok := active.Retain();
      if !ok {
        return null;
      }
      active.holders := active.holders + 1;
      g := active;
    }

    /** A holder is done with a generation. That never destroys it: the registry still has its own reference. */
    method HolderRelease(g: Generation)
      requires Valid() && g in published && g.holders > 0
      modifies g
      ensures Valid() && g.holders == old(g.holders) - 1 && !g.destroyed
    {
      HeldIsAlive(g);
      assert Counted(g);
      g.holders := g.holders - 1;
      var left := g.Release();
    }

    /** Drops the retired generation once nobody holds it any more. `released` is what releasing its
        background interests gave. */
    method Collect(timeValid: bool, released: ReleaseStatus) returns (status: CollectStatus)
      requires Valid()
      modifies this`retired, retired
      ensures Valid() && active == old(active) && published == old(published)
      ensures status.Collected? ==> old(retired) != null && retired == null && old(retired).destroyed
      ensures !status.Collected? ==>
              retired == old(retired)
                && (retired != null ==> retired.references == old(retired.references) && !retired.destroyed)
      ensures old(retired) != null ==> old(retired).holders == old(retired.holders)
      ensures status.CollectTime? <==>
              !timeValid || (released.ReleaseTime? && old(retired) != null && old(retired.holders) == 0)
      ensures timeValid ==> (status.NothingRetired? <==> old(retired) == null)
      ensures timeValid ==> (status.StillRetained? <==> old(retired) != null && old(retired.holders) > 0)
      ensures timeValid && released.ReleaseOk? ==>
              (status.Collected? <==> old(retired) != null && old(retired.holders) == 0)
      ensures timeValid && released.ReleaseOk? ==> !status.CollectBad?
    {
      if !timeValid {
        assert retired != null ==> Counted(retired);
        return CollectTime;
      }
      if retired == null {
        return NothingRetired;
      }
      assert Counted(retired);
      if retired.references == 0 {
        return CollectBad;
      }
      if retired.references > 1 {
        return StillRetained;
      }
      match released
      case ReleaseBad => return CollectBad;
      case ReleaseIo => return CollectIo;
      case ReleaseTime => return CollectTime;
      case ReleaseOk =>
      ghost var gone := retired;
      var left := retired.Release();
      if left != 0 {
        return CollectBad;
      }
      retired := null;
      assert forall g :: g in published && g != gone ==> old(Counted(g));
      status := Collected;
    }

    /** Makes the candidate active and retires the generation before it.
        A retired generation that is still held blocks the publication, which then changes nothing. */
    method Publish(candidate: Generation?, timeValid: bool, first: ReleaseStatus, second: ReleaseStatus)
        returns (status: PublishStatus)
      requires Valid() && (candidate != null ==>
               candidate !in published && !candidate.destroyed && candidate.holders == 0)
      modifies this, active, retired
      ensures Valid()
      ensures !Acceptable(old(active), candidate, old(if candidate == null then 0 else candidate.references)) ==>
              status.PublishBad?
      ensures Acceptable(old(active), candidate, old(if candidate == null then 0 else candidate.references))
              && timeValid ==>
                (status.Blocked? <==> old(retired) != null && old(retired.holders) > 0)
      ensures status.Blocked? ==>
              active == old(active) && retired == old(retired) && published == old(published) && retired != null
                && retired.references == old(retired.references) && !retired.destroyed
      ensures published == old(published)
              || (candidate != null && published == old(published) + {candidate} && active == candidate
                 && retired in {null, old(active)})
      ensures published == old(published) ==> active == old(active) && !status.Published?
      ensures status.Published? ==>
              candidate != null && active == candidate
                && (retired == null <==> old(active) == null || old(active.holders) == 0)
      ensures old(active) != null && old(active.holders) > 0 ==> !old(active).destroyed
      ensures old(retired) != null && old(retired.holders) > 0 ==>
              retired == old(retired) && !retired.destroyed && active == old(active)
      ensures old(active) != null ==> old(active).holders == old(active.holders)
      ensures old(retired) != null ==> old(retired).holders == old(retired.holders)
    {
      assert active != null ==> Counted(active);
      assert retired != null ==> Counted(retired);
      if candidate == null || candidate.identity == 0 || candidate.references != 1
        || (active != null && candidate.identity <= active.identity) {
        return PublishBad;
      }
      var collected := Collect(timeValid, first);
      if collected.StillRetained? {
        return Blocked;
      }
      if collected.CollectIo? {
        return PublishIo;
      }
      if collected.CollectTime? {
        return PublishTime;
      }
      if collected.CollectBad? {
        return PublishBad;
      }
      Swap(candidate);
      collected := Collect(timeValid, second);
      status := if collected.CollectIo? then PublishIo
                else if collected.CollectTime? then PublishTime
                     else if collected.CollectBad? then PublishBad else Published;
    }

    /** The two slots move on. */
    method Swap(candidate: Generation)
      requires Valid() && retired == null && candidate !in published && candidate.references == 1
               && !candidate.destroyed && candidate.holders == 0
      requires 0 < candidate.identity && (active != null ==> active.identity < candidate.identity)
      modifies this
      ensures Valid() && active == candidate && retired == old(active) && published == old(published) + {candidate}
    {
      retired := active;
      active := candidate;
      published := published + {candidate};
      assert forall g :: g in published && g != candidate ==> old(Counted(g));
    }
  }

  predicate Acceptable(active: Generation?, candidate: Generation?, references: nat) {
    candidate != null && candidate.identity != 0 && references == 1
      && (active != null ==> active.identity < candidate.identity)
  }

  // ---------------------------------------------------------------- whole runs

  datatype Step = PublishNew(identity: nat) | CollectOld | StartUsing | StopUsing(identity: nat)

  /** How often each generation is being used, kept beside the registry. */
  ghost predicate Ledger(registry: Registry, used: map<Generation, nat>)
    reads registry, registry.published
  {
    && (forall g :: g in used ==> g in registry.published && used[g] == g.holders)
    && (forall g :: g in registry.published && g !in used ==> g.holders == 0)
  }

  method Use(registry: Registry, ghost used: map<Generation, nat>) returns (ghost now: map<Generation, nat>)
    requires registry.Valid() && Ledger(registry, used)
    modifies registry.active
    ensures registry.Valid() && Ledger(registry, now) && registry.published == old(registry.published)
  {
    var g := registry.ActiveRetain();
    now := used;
    if g != null {
      var h: Generation := g;
      now := used[h := if h in used then used[h] + 1 else 1];
    }
  }

  method Unuse(registry: Registry, identity: nat, ghost used: map<Generation, nat>)
      returns (ghost now: map<Generation, nat>)
    requires registry.Valid() && Ledger(registry, used)
    modifies registry.active, registry.retired
    ensures registry.Valid() && Ledger(registry, now) && registry.published == old(registry.published)
  {
    now := used;
    var g := if registry.active != null && registry.active.identity == identity then registry.active
             else if registry.retired != null && registry.retired.identity == identity then registry.retired else null;
    if g != null && g.references > 1 {
      var h: Generation := g;
      assert registry.Counted(h);
      registry.HolderRelease(h);
      now := used[h := used[h] - 1];
    }
  }

  method PublishStep(registry: Registry, identity: nat, timeValid: bool, first: ReleaseStatus, second: ReleaseStatus,
      ghost used: map<Generation, nat>)
    requires registry.Valid() && Ledger(registry, used)
    modifies registry, registry.active, registry.retired
    ensures registry.Valid() && Ledger(registry, used) && fresh(registry.published - old(registry.published))
            && old(registry.published) <= registry.published
  {
    var candidate := new Generation(identity);
    var status := registry.Publish(candidate, timeValid, first, second);
  }

  /** Whatever is published, used and collected in whatever order: the generations that somebody uses are
      alive, at most two are, and identities only grow. `used` is how often each generation is being used. */
  method Run(steps: seq<Step>, timeValid: nat -> bool, released: nat -> ReleaseStatus)
      returns (registry: Registry, ghost used: map<Generation, nat>)
    ensures registry.Valid() && Ledger(registry, used)
    ensures forall g :: g in used && used[g] > 0 ==>
            !g.destroyed && (g == registry.active || g == registry.retired) && g.references == 1 + used[g]
  {
    registry := new Registry();
    used := map[];
    var n := 0;
    while n < |steps|
      invariant 0 <= n <= |steps| && registry.Valid() && Ledger(registry, used) && fresh(registry)
                && fresh(registry.published)
    {
      match steps[n] {
        case PublishNew(identity) =>
          PublishStep(registry, identity, timeValid(n), released(2 * n), released(2 * n + 1), used);
        case CollectOld =>
          var status := registry.Collect(timeValid(n), released(2 * n));
        case StartUsing =>
          used := Use(registry, used);
        case StopUsing(identity) =>
          used := Unuse(registry, identity, used);
      }
      n := n + 1;
    }
    forall g | g in used && used[g] > 0
      ensures !g.destroyed && (g == registry.active || g == registry.retired) && g.references == 1 + used[g]
    {
      registry.HeldIsAlive(g);
      assert registry.Counted(g);
    }
  }
}
