/** What the authority section of a response says about a name that has no records: the SOA record of the deepest
    zone around it, and how long the absence may be remembered (section 5 of RFC 2308).
 */
module DnsNegative {
  import opened Basics
  import opened Names
  import opened IpcCodec
  import IpcAssembly

  const AUTHORITY_LIMIT: nat := 128
  const ROOT: Name := [DOT]

  datatype AuthorityRecord = SoaRecord(owner: Name, minimum: u32, ttl: u32) | OtherRecord | Unreadable
  datatype NegativeStatus = SoaOk | SoaLimit | SoaMalformed

  // ---------------------------------------------------------------- the choice

  /** One more SOA record: a deeper zone replaces the one so far, the same zone again shortens its lives. */
  function Better(best: Negative, s: AuthorityRecord, canonical: Name): (r: Negative)
    requires s.SoaRecord?
  {
    if !Encloses(s.owner, canonical) then best
    else if !best.valid || |s.owner| > |best.owner|
           then Negative(true, s.owner, IpcAssembly.Lesser(s.minimum, s.ttl), s.minimum, s.ttl)
    else if s.owner == best.owner then
      var minimum, ttl := IpcAssembly.Lesser(s.minimum, best.minimum), IpcAssembly.Lesser(s.ttl, best.recordTtl);
      best.(minimum := minimum, recordTtl := ttl, effectiveTtl := IpcAssembly.Lesser(minimum, ttl))
    else best
  }

  function Chosen(authority: seq<AuthorityRecord>, canonical: Name): (r: Negative) {
    if authority == [] then IpcAssembly.NO_NEGATIVE
    else
      var before, s := Chosen(authority[..|authority| - 1], canonical), authority[|authority| - 1];
      if s.SoaRecord? then Better(before, s, canonical) else before
  }

  /** A negative answer does not outlive the chain that leads to it. */
  function Lowered(negative: Negative, ttl: u32): (r: Negative) {
    if negative.valid && ttl < negative.effectiveTtl then negative.(effectiveTtl := ttl) else negative
  }

  method NegativeParse(authority: seq<AuthorityRecord>, canonical: Name, ttl: u32)
      returns (status: NegativeStatus, n: Negative)
    ensures status.SoaLimit? <==> |authority| > AUTHORITY_LIMIT
    ensures status.SoaMalformed? <==> |authority| <= AUTHORITY_LIMIT && Unreadable in authority
    ensures n == if status.SoaOk? then Lowered(Chosen(authority, canonical), ttl) else IpcAssembly.NO_NEGATIVE
  {
    hide Better, Encloses;
    n := IpcAssembly.NO_NEGATIVE;
    if |authority| > AUTHORITY_LIMIT {
      return SoaLimit, n;
    }
    var best, k := n, 0;
    while k < |authority|
      invariant 0 <= k <= |authority| && Unreadable !in authority[..k] && best == Chosen(authority[..k], canonical)
    {
      assert authority[..k + 1][..k] == authority[..k] && authority[..k + 1] == authority[..k] + [authority[k]];
      if authority[k].Unreadable? {
        return SoaMalformed, n;
      }
      if authority[k].SoaRecord? {
        best := Better(best, authority[k], canonical);
      }
      k := k + 1;
    }
    assert authority[..k] == authority;
    n := Lowered(best, ttl);
    status := SoaOk;
  }

  // ---------------------------------------------------------------- what is chosen

  ghost predicate Speaks(s: AuthorityRecord, canonical: Name) {
    s.SoaRecord? && Encloses(s.owner, canonical)
  }

  ghost predicate Deepest(authority: seq<AuthorityRecord>, canonical: Name, owner: Name) {
    forall s :: s in authority && Speaks(s, canonical) ==> |s.owner| <= |owner|
  }

  /** The record a zone is chosen by: no zone before it is as deep. */
  ghost predicate Leading(authority: seq<AuthorityRecord>, canonical: Name, owner: Name, k: nat) {
    && k < |authority| && Speaks(authority[k], canonical) && authority[k].owner == owner
    && forall i :: 0 <= i < k && Speaks(authority[i], canonical) ==> |authority[i].owner| < |owner|
  }

  /** The lives of a zone's records: none is shorter, and both are somebody's. */
  ghost predicate Lives(authority: seq<AuthorityRecord>, canonical: Name, owner: Name, minimum: u32, ttl: u32) {
    && (forall s :: s in authority && Speaks(s, canonical) && s.owner == owner ==> minimum <= s.minimum && ttl <= s.ttl)
    && (exists s :: s in authority && Speaks(s, canonical) && s.owner == owner && s.minimum == minimum)
    && (exists s :: s in authority && Speaks(s, canonical) && s.owner == owner && s.ttl == ttl)
  }

  ghost predicate Decides(authority: seq<AuthorityRecord>, canonical: Name, n: Negative) {
    && n.valid && Deepest(authority, canonical, n.owner) && (exists k :: Leading(authority, canonical, n.owner, k))
    && Lives(authority, canonical, n.owner, n.minimum, n.recordTtl)
       && n.effectiveTtl == IpcAssembly.Lesser(n.minimum, n.recordTtl)
  }

  /** The absence is vouched for exactly if some SOA record of a zone around the name is there; then the deepest such
      zone counts, the first of them if there are several, with the shortest lives given for it. */
  lemma {:induction false} ChosenMeans(authority: seq<AuthorityRecord>, canonical: Name)
    ensures var n := Chosen(authority, canonical);
            if exists s :: s in authority && Speaks(s, canonical) then Decides(authority, canonical, n)
            else n == IpcAssembly.NO_NEGATIVE
  {
    hide Encloses, Better, Decides;
    if authority != [] {
      var rest, s := authority[..|authority| - 1], authority[|authority| - 1];
      ChosenMeans(rest, canonical);
      assert authority == rest + [s];
      if Speaks(s, canonical) {
        if exists x :: x in rest && Speaks(x, canonical) {
          DecidesNext(rest, s, canonical, Chosen(rest, canonical));
        } else {
          DecidesFirst(rest, s, canonical);
        }
      } else {
        Silent(rest, s, canonical, Chosen(rest, canonical));
      }
    }
  }

  lemma DecidesFirst(rest: seq<AuthorityRecord>, s: AuthorityRecord, canonical: Name)
    requires Speaks(s, canonical) && forall x :: x in rest ==> !Speaks(x, canonical)
    ensures Decides(rest + [s], canonical, Better(IpcAssembly.NO_NEGATIVE, s, canonical))
  {
    hide Encloses;
    var all := rest + [s];
    assert all[|rest|] == s && forall i :: 0 <= i < |rest| ==> all[i] == rest[i] && all[i] in rest;
    assert Leading(all, canonical, s.owner, |rest|);
    assert s in all;
  }

  lemma Silent(rest: seq<AuthorityRecord>, s: AuthorityRecord, canonical: Name, n: Negative)
    requires !Speaks(s, canonical)
    ensures s.SoaRecord? ==> Better(n, s, canonical) == n
    ensures Decides(rest, canonical, n) ==> Decides(rest + [s], canonical, n)
    ensures (exists x :: x in rest + [s] && Speaks(x, canonical)) <==> exists x :: x in rest && Speaks(x, canonical)
  {
    hide Encloses;
    var all := rest + [s];
    assert forall x :: x in all <==> x in rest || x == s;
    if Decides(rest, canonical, n) {
      var k :| Leading(rest, canonical, n.owner, k);
      LeadingStays(rest, s, canonical, n.owner, k);
    }
  }

  lemma LeadingStays(rest: seq<AuthorityRecord>, s: AuthorityRecord, canonical: Name, owner: Name, k: nat)
    requires Leading(rest, canonical, owner, k)
    ensures Leading(rest + [s], canonical, owner, k)
  {
    hide Speaks;
    assert forall i :: 0 <= i <= k ==> (rest + [s])[i] == rest[i];
  }

  lemma DecidesNext(rest: seq<AuthorityRecord>, s: AuthorityRecord, canonical: Name, n: Negative)
    requires Speaks(s, canonical) && Decides(rest, canonical, n)
    ensures Decides(rest + [s], canonical, Better(n, s, canonical))
  {
    hide Encloses, Lives, Deepest;
    var all := rest + [s];
    DeepestNext(rest, s, canonical, n.owner);
    if |s.owner| > |n.owner| {
      DeeperLeads(rest, s, canonical, n.owner);
    } else {
      var k :| Leading(rest, canonical, n.owner, k);
      LeadingStays(rest, s, canonical, n.owner, k);
      LivesNext(rest, s, canonical, n);
    }
  }

  lemma DeepestNext(rest: seq<AuthorityRecord>, s: AuthorityRecord, canonical: Name, owner: Name)
    requires Deepest(rest, canonical, owner) && Speaks(s, canonical)
    ensures if |s.owner| > |owner| then Deepest(rest + [s], canonical, s.owner)
            else Deepest(rest + [s], canonical, owner)
  {
    hide Speaks;
    assert forall x :: x in rest + [s] <==> x in rest || x == s;
  }

  lemma DeeperLeads(rest: seq<AuthorityRecord>, s: AuthorityRecord, canonical: Name, owner: Name)
    requires Deepest(rest, canonical, owner) && Speaks(s, canonical) && |s.owner| > |owner|
    ensures Leading(rest + [s], canonical, s.owner, |rest|) && Lives(rest + [s], canonical, s.owner, s.minimum, s.ttl)
  {
    hide Speaks;
    var all := rest + [s];
    assert all[|rest|] == s && forall i :: 0 <= i < |rest| ==> all[i] == rest[i] && all[i] in rest;
    assert forall x :: x in all <==> x in rest || x == s;
  }

  lemma LivesNext(rest: seq<AuthorityRecord>, s: AuthorityRecord, canonical: Name, n: Negative)
    requires Speaks(s, canonical) && Lives(rest, canonical, n.owner, n.minimum, n.recordTtl)
    ensures if s.owner == n.owner
            then Lives(rest + [s], canonical, n.owner, IpcAssembly.Lesser(s.minimum, n.minimum),
              IpcAssembly.Lesser(s.ttl, n.recordTtl))
            else Lives(rest + [s], canonical, n.owner, n.minimum, n.recordTtl)
  {
    hide Encloses;
    var all := rest + [s];
    assert forall x :: x in all <==> x in rest || x == s;
    var a :| a in rest && Speaks(a, canonical) && a.owner == n.owner && a.minimum == n.minimum;
    var b :| b in rest && Speaks(b, canonical) && b.owner == n.owner && b.ttl == n.recordTtl;
    assert a in all && b in all && s in all;
  }

  lemma Spokesman(authority: seq<AuthorityRecord>, canonical: Name, n: Negative) returns (s: AuthorityRecord)
    requires Decides(authority, canonical, n)
    ensures s in authority && Speaks(s, canonical) && s.owner == n.owner
  {
    hide Encloses, Lives, Deepest;
    var k: nat :| Leading(authority, canonical, n.owner, k);
    s := authority[k];
  }

  /** A negative answer as a lookup hands it on: none, or that of a zone around the name, which lives as long as the
      zone's record and the chain to the name allow. */
  predicate Vouched(n: Negative, canonical: Name, ttl: u32) {
    || n == IpcAssembly.NO_NEGATIVE
    || (n.valid && Encloses(n.owner, canonical)
       && n.effectiveTtl == IpcAssembly.Lesser(IpcAssembly.Lesser(n.minimum, n.recordTtl), ttl))
  }

  lemma ChosenVouched(authority: seq<AuthorityRecord>, canonical: Name, ttl: u32)
    ensures Vouched(Lowered(Chosen(authority, canonical), ttl), canonical, ttl)
  {
    hide Encloses, Chosen;
    ChosenMeans(authority, canonical);
    var n := Chosen(authority, canonical);
    if exists s :: s in authority && Speaks(s, canonical) {
      var s := Spokesman(authority, canonical, n);
    }
  }

  /** A longer chain can only shorten its life. */
  lemma VouchedLonger(n: Negative, canonical: Name, ttl: u32, less: u32)
    requires Vouched(n, canonical, ttl) && less <= ttl
    ensures Vouched(Lowered(n, less), canonical, less)
  {
    hide Encloses;
  }

  /** The chosen zone is one the section names. */
  lemma ChosenNamed(authority: seq<AuthorityRecord>, canonical: Name)
    ensures var n := Chosen(authority, canonical);
            n.valid ==> exists s :: s in authority && s.SoaRecord? && s.owner == n.owner
  {
    hide Encloses, Chosen;
    ChosenMeans(authority, canonical);
    if exists s :: s in authority && Speaks(s, canonical) {
      var s := Spokesman(authority, canonical, Chosen(authority, canonical));
    }
  }

  // ---------------------------------------------------------------- the order of the section

  /** Two zones around a name are equally deep only if they are the same, or one is the root and the other a single
      character long. */
  lemma ZonesNest(a: Name, b: Name, name: Name)
    requires Encloses(a, name) && Encloses(b, name) && |a| == |b|
    ensures a == b || a == ROOT || b == ROOT
  {
  }

  /** The root and a zone of one character speak, and no deeper zone does. */
  ghost predicate Tie(authority: seq<AuthorityRecord>, canonical: Name) {
    && (exists s :: s in authority && Speaks(s, canonical) && s.owner == ROOT)
    && (exists s :: s in authority && Speaks(s, canonical) && s.owner != ROOT && |s.owner| == 1)
    && Deepest(authority, canonical, ROOT)
  }

  lemma SameElements<X>(a: seq<X>, b: seq<X>, x: X)
    requires multiset(a) == multiset(b)
    ensures x in a <==> x in b
  {
    assert x in a <==> x in multiset(a);
    assert x in b <==> x in multiset(b);
  }

  lemma SameZone(authority: seq<AuthorityRecord>, other: seq<AuthorityRecord>, canonical: Name, n: Negative,
      m: Negative)
    requires (forall s :: s in authority <==> s in other) && Decides(authority, canonical, n)
             && Decides(other, canonical, m)
    ensures n.owner == m.owner || Tie(authority, canonical)
  {
    hide Encloses, Lives, Leading;
    var s := Spokesman(authority, canonical, n);
    var r := Spokesman(other, canonical, m);
    assert |s.owner| == |r.owner|;
    ZonesNest(s.owner, r.owner, canonical);
  }

  lemma SameLives(authority: seq<AuthorityRecord>, other: seq<AuthorityRecord>, canonical: Name, n: Negative,
      m: Negative)
    requires (forall s :: s in authority <==> s in other) && Decides(authority, canonical, n)
             && Decides(other, canonical, m) && n.owner == m.owner
    ensures n == m
  {
    hide Encloses, Deepest, Leading;
  }

  /** Unless there is such a tie, the order of the section does not matter. */
  lemma ChosenPermuted(authority: seq<AuthorityRecord>, other: seq<AuthorityRecord>, canonical: Name)
    requires multiset(authority) == multiset(other) && !Tie(authority, canonical)
    ensures Chosen(authority, canonical) == Chosen(other, canonical)
  {
    hide Chosen, Decides, Tie, Speaks;
    forall s
      ensures s in authority <==> s in other
    {
      SameElements(authority, other, s);
    }
    ChosenMeans(authority, canonical);
    ChosenMeans(other, canonical);
    if exists s :: s in authority && Speaks(s, canonical) {
      var n, m := Chosen(authority, canonical), Chosen(other, canonical);
      SameZone(authority, other, canonical, n, m);
      SameLives(authority, other, canonical, n, m);
    }
  }

  /** In a tie whichever of the two comes first is chosen. */
  lemma TieMatters(authority: seq<AuthorityRecord>, canonical: Name) returns (other: seq<AuthorityRecord>)
    requires Tie(authority, canonical)
    ensures multiset(other) == multiset(authority) && Chosen(other, canonical) != Chosen(authority, canonical)
  {
    hide Chosen, Encloses, Lives, Leading;
    var n := Chosen(authority, canonical);
    var s :| s in authority && Speaks(s, canonical) && |s.owner| == 1 && s.owner != n.owner;
    var i :| 0 <= i < |authority| && authority[i] == s;
    var front, back := authority[..i], authority[i + 1..];
    other := [s] + (front + back);
    assert authority == front + ([s] + back);
    assert multiset(other) == multiset(authority);
    ChosenMeans(other, canonical);
    var m := Chosen(other, canonical);
    assert s in other;
    FirstWins(other, canonical, m);
  }

  lemma FirstWins(authority: seq<AuthorityRecord>, canonical: Name, n: Negative)
    requires authority != [] && Decides(authority, canonical, n) && Speaks(authority[0], canonical)
    requires forall s :: s in authority && Speaks(s, canonical) ==> |s.owner| <= |authority[0].owner|
    ensures n.owner == authority[0].owner
  {
    hide Encloses, Lives, Deepest;
    var k: nat :| Leading(authority, canonical, n.owner, k);
    assert authority[k] in authority;
  }

  lemma ChosenTwo(a: AuthorityRecord, b: AuthorityRecord, canonical: Name)
    requires a.SoaRecord? && b.SoaRecord?
    ensures Chosen([a, b], canonical) == Better(Better(IpcAssembly.NO_NEGATIVE, a, canonical), b, canonical)
  {
    hide Better;
    assert [a, b][..1] == [a] && [a][..0] == [];
    assert Chosen([a], canonical) == Better(Chosen([], canonical), a, canonical);
  }

  /** Two records and a name for which the deeper zone is passed over. */
  lemma RootPassesOver()
    ensures var root, zone, name := SoaRecord(ROOT, 10, 10), SoaRecord([0x61], 20, 20), [0x62, DOT, 0x61];
            Chosen([root, zone], name).owner == ROOT && Chosen([zone, root], name).owner == [0x61]
  {
    var root, zone, name := SoaRecord(ROOT, 10, 10), SoaRecord([0x61], 20, 20), [0x62, DOT, 0x61];
    assert name[2..] == [0x61];
    ChosenTwo(root, zone, name);
    ChosenTwo(zone, root, name);
  }

  /** The choice is independent of the order of the section exactly if there is no tie. */
  lemma OrderMatters(authority: seq<AuthorityRecord>, canonical: Name)
    ensures (forall other: seq<AuthorityRecord> :: multiset(other) == multiset(authority) ==>
            Chosen(other, canonical) == Chosen(authority, canonical))
            <==> !Tie(authority, canonical)
  {
    hide Chosen, Tie;
    if Tie(authority, canonical) {
      var other := TieMatters(authority, canonical);
      assert Chosen(other, canonical) != Chosen(authority, canonical);
    } else {
      forall other: seq<AuthorityRecord> | multiset(other) == multiset(authority)
        ensures Chosen(other, canonical) == Chosen(authority, canonical)
      {
        ChosenPermuted(authority, other, canonical);
      }
    }
  }
}
