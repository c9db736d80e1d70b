/** Following the aliases in the answer section of a response (section 3.6.2 of RFC 1034), and from one
    response to the next query.
 */
module DnsChain {
  import opened Basics
  import opened Names
  import opened IpcCodec
  import IpcAssembly

  const DEPTH: nat := 16

  // ---------------------------------------------------------------- names

  /** Two names are the same if they differ only in case and one trailing dot. */
  function Canon(name: Name): (r: Name) {
    LowerAll(if |name| > 1 && name[|name| - 1] == DOT then name[..|name| - 1] else name)
  }

  method NameEqual(left: Name, right: Name) returns (same: bool)
    ensures same == (Canon(left) == Canon(right))
  {
    var m := if |left| > 1 && left[|left| - 1] == DOT then |left| - 1 else |left|;
    var n := if |right| > 1 && right[|right| - 1] == DOT then |right| - 1 else |right|;
    assert |Canon(left)| == m && |Canon(right)| == n;
    if m != n {
      return false;
    }
    var k := 0;
    while k < m
      invariant 0 <= k <= m && forall i :: 0 <= i < k ==> Lower(left[i]) == Lower(right[i])
    {
      assert Canon(left)[k] == Lower(left[k]) && Canon(right)[k] == Lower(right[k]);
      if Lower(left[k]) != Lower(right[k]) {
        return false;
      }
      k := k + 1;
    }
    assert forall i :: 0 <= i < m ==> Canon(left)[i] == Lower(left[i]) && Canon(right)[i] == Lower(right[i]);
    same := true;
  }

  lemma NormalizedIsCanonical(name: Name)
    requires Normalized(name)
    ensures Canon(name) == name
  {
  }

  // ---------------------------------------------------------------- what a chain is

  /** The names along a chain. */
  function Path(question: Name, chain: seq<CnameRecord>): (r: seq<Name>)
    ensures |r| == |chain| + 1 && r[0] == Canon(question)
    ensures forall i :: 0 <= i < |chain| ==> r[i + 1] == Canon(chain[i].target)
  {
    [Canon(question)] + seq(|chain|, i requires 0 <= i < |chain| => Canon(chain[i].target))
  }

  /** All aliases of a name agree where they lead, and the shortest-lived of them counts. */
  ghost predicate Leads(cnames: seq<CnameRecord>, node: Name, next: Name, ttl: u32) {
    && (forall c :: c in cnames && Canon(c.owner) == node ==> Canon(c.target) == next && ttl <= c.ttl)
    && (exists c :: c in cnames && Canon(c.owner) == node && c.ttl == ttl)
  }

  ghost predicate Ends(cnames: seq<CnameRecord>, node: Name) {
    forall c :: c in cnames ==> Canon(c.owner) != node
  }

  ghost predicate Held(owners: seq<Name>, node: Name) {
    exists o :: o in owners && Canon(o) == node
  }

  /** The simple path the aliases of a response describe, with the life of each link: it starts at the
      question, ends where no alias leads on, and only its end may hold records. */
  ghost predicate Traced(cnames: seq<CnameRecord>, owners: seq<Name>, question: Name, nodes: seq<Name>,
      ttls: seq<u32>) {
    && |nodes| == |ttls| + 1 <= DEPTH + 1 && nodes[0] == Canon(question) && Distinct(nodes)
    && (forall i :: 0 <= i < |ttls| ==> Linked(cnames, owners, nodes, ttls, i))
    && Ends(cnames, nodes[|ttls|])
  }

  ghost predicate Linked(cnames: seq<CnameRecord>, owners: seq<Name>, nodes: seq<Name>, ttls: seq<u32>, i: nat)
    requires i < |ttls| && i + 1 < |nodes|
  {
    Leads(cnames, nodes[i], nodes[i + 1], ttls[i]) && !Held(owners, nodes[i])
  }

  function Ttls(chain: seq<CnameRecord>): (r: seq<u32>)
    ensures |r| == |chain| && forall i :: 0 <= i < |chain| ==> r[i] == chain[i].ttl
  {
    seq(|chain|, i requires 0 <= i < |chain| => chain[i].ttl)
  }

  // ---------------------------------------------------------------- one pass over the aliases

  datatype Match = Nothing | Match(first: CnameRecord, ttl: u32) | Conflict

  function MatchOf(cnames: seq<CnameRecord>, current: Name): (r: Match) {
    if cnames == [] then Nothing
    else
      var before, c := MatchOf(cnames[..|cnames| - 1], current), cnames[|cnames| - 1];
      if before.Conflict? || Canon(c.owner) != Canon(current) then before
      else if before.Nothing? then Match(c, c.ttl)
      else if Canon(before.first.target) != Canon(c.target) then Conflict
      else Match(before.first, if c.ttl < before.ttl then c.ttl else before.ttl)
  }

  ghost predicate Disagree(cnames: seq<CnameRecord>, node: Name) {
    exists c, d :: c in cnames && d in cnames && Canon(c.owner) == node && Canon(d.owner) == node
      && Canon(c.target) != Canon(d.target)
  }

  lemma {:induction false} MatchMeans(cnames: seq<CnameRecord>, current: Name)
    ensures var m, node := MatchOf(cnames, current), Canon(current);
            && (m.Nothing? ==> Ends(cnames, node))
            && (m.Match? ==>
               m.first in cnames && Canon(m.first.owner) == node && Leads(cnames, node, Canon(m.first.target), m.ttl))
            && (m.Conflict? ==> Disagree(cnames, node))
  {
    hide Canon;
    if cnames != [] {
      var rest, c := cnames[..|cnames| - 1], cnames[|cnames| - 1];
      MatchMeans(rest, current);
      assert cnames == rest + [c];
      MatchStep(rest, c, current);
    }
  }

  lemma MatchStep(rest: seq<CnameRecord>, c: CnameRecord, current: Name)
    requires var m, node := MatchOf(rest, current), Canon(current);
             && (m.Nothing? ==> Ends(rest, node))
             && (m.Match? ==>
                m.first in rest && Canon(m.first.owner) == node && Leads(rest, node, Canon(m.first.target), m.ttl))
             && (m.Conflict? ==> Disagree(rest, node))
    ensures var m, node := MatchOf(rest + [c], current), Canon(current);
            && (m.Nothing? ==> Ends(rest + [c], node))
            && (m.Match? ==>
               m.first in rest + [c] && Canon(m.first.owner) == node
                 && Leads(rest + [c], node, Canon(m.first.target), m.ttl))
            && (m.Conflict? ==> Disagree(rest + [c], node))
  {
    hide Canon;
    assert (rest + [c])[..|rest|] == rest;
    var before, m := MatchOf(rest, current), MatchOf(rest + [c], current);
    assert c in rest + [c];
    if m.Conflict? && !before.Conflict? {
      assert before.first in rest + [c];
    }
  }

  /** What a name's aliases say depends only on which aliases there are. */
  lemma MatchExactly(cnames: seq<CnameRecord>, current: Name, other: seq<CnameRecord>, same: Name)
    requires (forall c :: c in cnames <==> c in other) && Canon(current) == Canon(same)
    ensures var m, n := MatchOf(cnames, current), MatchOf(other, same);
            && (m.Nothing? <==> n.Nothing?) && (m.Conflict? <==> n.Conflict?)
            && (m.Match? && n.Match? ==>
               Canon(m.first.target) == Canon(n.first.target) && m.ttl == n.ttl
                 && Canon(m.first.owner) == Canon(n.first.owner))
  {
    hide Canon, MatchOf;
    MatchMeans(cnames, current);
    MatchMeans(other, same);
    var m, n := MatchOf(cnames, current), MatchOf(other, same);
    if m.Match? && n.Match? {
      assert n.first in cnames;
    }
  }

  // ---------------------------------------------------------------- following

  datatype Outcome = Reached(chain: seq<CnameRecord>, last: Name) | TooDeep | Broken

  predicate Revisits(chain: seq<CnameRecord>, target: Name) {
    exists i :: 0 <= i < |chain| && Canon(chain[i].owner) == Canon(target)
  }

  predicate Holds(owners: seq<Name>, current: Name) {
    exists o :: o in owners && Canon(o) == Canon(current)
  }

  /** The next link to append, unless the walk is over. */
  function Step(cnames: seq<CnameRecord>, owners: seq<Name>, current: Name, chain: seq<CnameRecord>): (r: Outcome)
    ensures r.Reached? ==> r.chain == chain || |r.chain| == |chain| + 1 <= DEPTH
  {
    var m := MatchOf(cnames, current);
    if m.Conflict? then Broken
    else if m.Nothing? then Reached(chain, current)
    else if Holds(owners, current) then Broken
    else if |chain| >= DEPTH then TooDeep
    else if Revisits(chain, m.first.target) then Broken
    else Reached(chain + [m.first.(ttl := m.ttl)], m.first.target)
  }

  function Follow(cnames: seq<CnameRecord>, owners: seq<Name>, current: Name, chain: seq<CnameRecord>): (r: Outcome)
    decreases DEPTH + 1 - |chain|
  {
    var next := Step(cnames, owners, current, chain);
    if !next.Reached? || next.chain == chain then next else Follow(cnames, owners, next.last, next.chain)
  }

  /** What holds of every chain while it grows: it is a path, its owners differ, and its end can only be
      the owner of the link that led there. */
  ghost predicate Walked(cnames: seq<CnameRecord>, owners: seq<Name>, question: Name, chain: seq<CnameRecord>,
      current: Name) {
    var nodes := Path(question, chain);
    && |chain| <= DEPTH && nodes[|chain|] == Canon(current)
    && (forall i :: 0 <= i < |chain| ==>
       Canon(chain[i].owner) == nodes[i] && Linked(cnames, owners, nodes, Ttls(chain), i))
    && Distinct(nodes[..|chain|])
    && (forall i :: 0 <= i < |chain| - 1 ==> nodes[i] != nodes[|chain|])
  }

  lemma PathLonger(question: Name, chain: seq<CnameRecord>, link: CnameRecord)
    ensures Path(question, chain + [link]) == Path(question, chain) + [Canon(link.target)]
            && Ttls(chain + [link]) == Ttls(chain) + [link.ttl]
  {
    hide Canon;
  }

  lemma LinkedStill(cnames: seq<CnameRecord>, owners: seq<Name>, nodes: seq<Name>, ttls: seq<u32>, i: nat, node: Name,
      ttl: u32)
    requires i < |ttls| && |nodes| == |ttls| + 1 && Linked(cnames, owners, nodes, ttls, i)
    ensures Linked(cnames, owners, nodes + [node], ttls + [ttl], i)
  {
    hide Leads, Held;
  }

  lemma WalkedLonger(cnames: seq<CnameRecord>, owners: seq<Name>, question: Name, chain: seq<CnameRecord>,
      current: Name, link: CnameRecord)
    requires Walked(cnames, owners, question, chain, current) && |chain| < DEPTH
    requires Canon(link.owner) == Canon(current) && Leads(cnames, Canon(current), Canon(link.target), link.ttl)
             && !Held(owners, Canon(current))
    requires Distinct(Path(question, chain))
             && forall i :: 0 <= i < |chain| ==> Path(question, chain)[i] != Canon(link.target)
    ensures Walked(cnames, owners, question, chain + [link], link.target)
  {
    hide Canon, Leads, Held, Path, Ttls, Distinct;
    var nodes, ttls, k, longer := Path(question, chain), Ttls(chain), |chain|, chain + [link];
    PathLonger(question, chain, link);
    var more := Path(question, longer);
    assert more[..k + 1] == nodes;
    forall i | 0 <= i < |longer|
      ensures Canon(longer[i].owner) == more[i] && Linked(cnames, owners, more, Ttls(longer), i)
    {
      if i < k {
        assert Canon(chain[i].owner) == nodes[i] && Linked(cnames, owners, nodes, ttls, i);
        LinkedStill(cnames, owners, nodes, ttls, i, Canon(link.target), link.ttl);
      }
    }
  }

  lemma StepWalks(cnames: seq<CnameRecord>, owners: seq<Name>, question: Name, chain: seq<CnameRecord>, current: Name)
    requires Walked(cnames, owners, question, chain, current)
    ensures var next := Step(cnames, owners, current, chain);
            next.Reached? && next.chain != chain ==> Walked(cnames, owners, question, next.chain, next.last)
  {
    hide Canon, MatchOf, Leads, Held, Walked, Path, Distinct, Revisits, Holds;
    var next := Step(cnames, owners, current, chain);
    if next.Reached? && next.chain != chain {
      MatchMeans(cnames, current);
      var m := MatchOf(cnames, current);
      NotHeld(owners, current);
      CurrentIsNew(cnames, owners, question, chain, current, m);
      WalkedLonger(cnames, owners, question, chain, current, m.first.(ttl := m.ttl));
    }
  }

  lemma NotHeld(owners: seq<Name>, current: Name)
    ensures Holds(owners, current) <==> Held(owners, Canon(current))
  {
  }

  lemma DistinctLonger(nodes: seq<Name>, k: nat)
    requires |nodes| == k + 1 && Distinct(nodes[..k]) && forall i :: 0 <= i < k ==> nodes[i] != nodes[k]
    ensures Distinct(nodes)
  {
    var front := nodes[..k];
    forall i, j | 0 <= i < j < |nodes|
      ensures nodes[i] != nodes[j]
    {
      assert j < k ==> front[i] == nodes[i] && front[j] == nodes[j];
    }
  }

  lemma LastLink(cnames: seq<CnameRecord>, owners: seq<Name>, question: Name, chain: seq<CnameRecord>, current: Name)
    requires Walked(cnames, owners, question, chain, current) && chain != []
    ensures var nodes, k := Path(question, chain), |chain|; Leads(cnames, nodes[k - 1], nodes[k], Ttls(chain)[k - 1])
  {
    hide Canon, Leads, Held;
    assert Linked(cnames, owners, Path(question, chain), Ttls(chain), |chain| - 1);
  }

  /** A link is only appended at a name that has not been left before. */
  lemma CurrentIsNew(cnames: seq<CnameRecord>, owners: seq<Name>, question: Name, chain: seq<CnameRecord>,
      current: Name, m: Match)
    requires Walked(cnames, owners, question, chain, current) && m == MatchOf(cnames, current) && m.Match?
             && !Revisits(chain, m.first.target)
    ensures Distinct(Path(question, chain))
            && forall i :: 0 <= i < |chain| ==> Path(question, chain)[i] != Canon(m.first.target)
  {
    hide Canon, MatchOf, Held, Linked, Distinct;
    MatchMeans(cnames, current);
    var nodes, k := Path(question, chain), |chain|;
    assert forall i :: 0 <= i < k ==> nodes[i] == Canon(chain[i].owner) && nodes[i] != Canon(m.first.target);
    if k > 0 {
      LastLink(cnames, owners, question, chain, current);
      LeadsThere(cnames, m.first, nodes[k - 1], nodes[k], Ttls(chain)[k - 1]);
    }
    DistinctLonger(nodes, k);
  }

  lemma EndIsNew(cnames: seq<CnameRecord>, owners: seq<Name>, question: Name, chain: seq<CnameRecord>, current: Name)
    requires Walked(cnames, owners, question, chain, current) && Ends(cnames, Canon(current))
    ensures Distinct(Path(question, chain))
  {
    hide Canon, Held, Linked, Distinct, Leads, Ends;
    var nodes, k := Path(question, chain), |chain|;
    if k > 0 {
      LastLink(cnames, owners, question, chain, current);
      LeadsOn(cnames, nodes[k - 1], nodes[k], Ttls(chain)[k - 1], nodes[k]);
    }
    DistinctLonger(nodes, k);
  }

  lemma LeadsThere(cnames: seq<CnameRecord>, c: CnameRecord, node: Name, next: Name, ttl: u32)
    requires Leads(cnames, node, next, ttl) && c in cnames
    ensures Canon(c.owner) == node ==> Canon(c.target) == next
  {
    hide Canon;
  }

  lemma LeadsOn(cnames: seq<CnameRecord>, node: Name, next: Name, ttl: u32, end: Name)
    requires Leads(cnames, node, next, ttl) && Ends(cnames, end)
    ensures node != end
  {
    hide Canon;
  }

  /** Whatever following reaches is the path the aliases describe. */
  lemma {:induction false} FollowSound(cnames: seq<CnameRecord>, owners: seq<Name>, question: Name,
      chain: seq<CnameRecord>, current: Name)
    requires Walked(cnames, owners, question, chain, current)
    ensures var r := Follow(cnames, owners, current, chain);
            r.Reached? ==>
              && Walked(cnames, owners, question, r.chain, r.last)
              && Traced(cnames, owners, question, Path(question, r.chain), Ttls(r.chain))
    decreases DEPTH + 1 - |chain|
  {
    hide Canon, MatchOf, Linked;
    var next := Step(cnames, owners, current, chain);
    if next.Reached? {
      if next.chain == chain {
        MatchMeans(cnames, current);
        EndIsNew(cnames, owners, question, chain, current);
      } else {
        StepWalks(cnames, owners, question, chain, current);
        FollowSound(cnames, owners, question, next.chain, next.last);
      }
    }
  }

  lemma StartWalks(cnames: seq<CnameRecord>, owners: seq<Name>, question: Name)
    ensures Walked(cnames, owners, question, [], question)
  {
  }

  /** The prefix of a traced path that a growing chain has reached. */
  ghost predicate Along(nodes: seq<Name>, ttls: seq<u32>, question: Name, chain: seq<CnameRecord>, current: Name) {
    && |chain| <= |ttls| && |nodes| == |ttls| + 1 && Path(question, chain) == nodes[..|chain| + 1]
       && Ttls(chain) == ttls[..|chain|]
    && Canon(current) == nodes[|chain|]
    && (forall i :: 0 <= i < |chain| ==> Canon(chain[i].owner) == nodes[i])
  }

  lemma AlongLonger(nodes: seq<Name>, ttls: seq<u32>, question: Name, chain: seq<CnameRecord>, current: Name,
      link: CnameRecord)
    requires Along(nodes, ttls, question, chain, current) && |chain| < |ttls|
    requires Canon(link.owner) == nodes[|chain|] && Canon(link.target) == nodes[|chain| + 1]
             && link.ttl == ttls[|chain|]
    ensures Along(nodes, ttls, question, chain + [link], link.target)
  {
    hide Canon, Path, Ttls;
    PathLonger(question, chain, link);
    var k := |chain|;
    assert nodes[..k + 1] + [nodes[k + 1]] == nodes[..k + 2];
    assert ttls[..k] + [ttls[k]] == ttls[..k + 1];
  }

  /** While there are links left, the aliases of the current name lead along the path, to a name not visited yet. */
  lemma MatchAlong(cnames: seq<CnameRecord>, owners: seq<Name>, question: Name, nodes: seq<Name>, ttls: seq<u32>,
      chain: seq<CnameRecord>, current: Name)
    requires Traced(cnames, owners, question, nodes, ttls) && Along(nodes, ttls, question, chain, current)
             && |chain| < |ttls|
    ensures var m, k := MatchOf(cnames, current), |chain|;
            && m.Match? && Canon(m.first.owner) == nodes[k] && Canon(m.first.target) == nodes[k + 1] && m.ttl == ttls[k]
            && !Holds(owners, current) && !Revisits(chain, m.first.target)
  {
    hide Canon, MatchOf, Path, Ttls, Held, Holds;
    MatchMeans(cnames, current);
    NotHeld(owners, current);
    var k := |chain|;
    assert Linked(cnames, owners, nodes, ttls, k);
    assert Leads(cnames, nodes[k], nodes[k + 1], ttls[k]);
    assert forall i :: 0 <= i < k ==> Canon(chain[i].owner) == nodes[i] != nodes[k + 1];
  }

  lemma MatchAtEnd(cnames: seq<CnameRecord>, current: Name)
    requires Ends(cnames, Canon(current))
    ensures MatchOf(cnames, current).Nothing?
  {
    hide Canon, MatchOf;
    MatchMeans(cnames, current);
  }

  lemma StepAlong(cnames: seq<CnameRecord>, owners: seq<Name>, question: Name, nodes: seq<Name>, ttls: seq<u32>,
      chain: seq<CnameRecord>, current: Name)
    requires Traced(cnames, owners, question, nodes, ttls) && Along(nodes, ttls, question, chain, current)
    ensures var next := Step(cnames, owners, current, chain);
            && next.Reached? && (next.chain == chain <==> |chain| == |ttls|)
            && (next.chain != chain ==> Along(nodes, ttls, question, next.chain, next.last))
            && (next.chain == chain ==> next.last == current)
  {
    hide Canon, MatchOf, Path, Ttls, Holds, Revisits, Ends, Linked, Distinct;
    if |chain| < |ttls| {
      MatchAlong(cnames, owners, question, nodes, ttls, chain, current);
      var m := MatchOf(cnames, current);
      AlongLonger(nodes, ttls, question, chain, current, m.first.(ttl := m.ttl));
    } else {
      MatchAtEnd(cnames, current);
    }
  }

  lemma {:induction false} FollowComplete(cnames: seq<CnameRecord>, owners: seq<Name>, question: Name, nodes: seq<Name>,
      ttls: seq<u32>, chain: seq<CnameRecord>, current: Name)
    requires Traced(cnames, owners, question, nodes, ttls) && Along(nodes, ttls, question, chain, current)
    ensures var r := Follow(cnames, owners, current, chain);
            r.Reached? && Path(question, r.chain) == nodes && Ttls(r.chain) == ttls
    decreases DEPTH + 1 - |chain|
  {
    hide Canon, MatchOf, Linked, Step, Traced, Path, Ttls;
    StepAlong(cnames, owners, question, nodes, ttls, chain, current);
    var next := Step(cnames, owners, current, chain);
    if next.chain == chain {
      assert nodes[..|chain| + 1] == nodes && ttls[..|chain|] == ttls;
    } else {
      FollowComplete(cnames, owners, question, nodes, ttls, next.chain, next.last);
    }
  }

  /** Following succeeds exactly when the aliases describe a simple path of at most sixteen links, and then
      yields that path with the shortest life of each link. */
  lemma FollowExactly(cnames: seq<CnameRecord>, owners: seq<Name>, question: Name, nodes: seq<Name>, ttls: seq<u32>)
    ensures Traced(cnames, owners, question, nodes, ttls) <==>
              var r := Follow(cnames, owners, question, []);
              r.Reached? && Path(question, r.chain) == nodes && Ttls(r.chain) == ttls
  {
    hide Follow, Traced, Canon;
    StartWalks(cnames, owners, question);
    FollowSound(cnames, owners, question, [], question);
    if Traced(cnames, owners, question, nodes, ttls) {
      StartsAlong(cnames, owners, question, nodes, ttls);
      FollowComplete(cnames, owners, question, nodes, ttls, [], question);
    }
  }

  lemma StartsAlong(cnames: seq<CnameRecord>, owners: seq<Name>, question: Name, nodes: seq<Name>, ttls: seq<u32>)
    requires Traced(cnames, owners, question, nodes, ttls)
    ensures Along(nodes, ttls, question, [], question)
  {
    hide Canon;
  }

  // ---------------------------------------------------------------- order does not matter

  ghost predicate SameChain(chain: seq<CnameRecord>, other: seq<CnameRecord>) {
    |chain| == |other| && forall i :: 0 <= i < |chain| ==>
      Canon(chain[i].owner) == Canon(other[i].owner) && Canon(chain[i].target) == Canon(other[i].target)
        && chain[i].ttl == other[i].ttl
  }

  ghost predicate SameOutcome(r: Outcome, q: Outcome) {
    && (r.Broken? <==> q.Broken?) && (r.TooDeep? <==> q.TooDeep?)
    && (r.Reached? && q.Reached? ==> SameChain(r.chain, q.chain) && Canon(r.last) == Canon(q.last))
  }

  lemma StepPermuted(cnames: seq<CnameRecord>, owners: seq<Name>, current: Name, chain: seq<CnameRecord>,
                     other: seq<CnameRecord>, holders: seq<Name>, same: Name, alike: seq<CnameRecord>)
    requires (forall c :: c in cnames <==> c in other) && (forall o :: o in owners <==> o in holders)
    requires Canon(current) == Canon(same) && SameChain(chain, alike)
    ensures var r, q := Step(cnames, owners, current, chain), Step(other, holders, same, alike);
            SameOutcome(r, q) && (r.Reached? && q.Reached? ==> (r.chain == chain <==> q.chain == alike))
  {
    hide Canon, MatchOf;
    MatchExactly(cnames, current, other, same);
    var m, n := MatchOf(cnames, current), MatchOf(other, same);
    assert Holds(owners, current) <==> Holds(holders, same);
    if m.Match? && n.Match? {
      assert Revisits(chain, m.first.target) <==> Revisits(alike, n.first.target);
    }
  }

  /** The outcome, the path and its lives do not depend on the order of the answers. */
  lemma {:induction false} FollowPermuted(cnames: seq<CnameRecord>, owners: seq<Name>, current: Name,
      chain: seq<CnameRecord>, other: seq<CnameRecord>, holders: seq<Name>, same: Name, alike: seq<CnameRecord>)
    requires (forall c :: c in cnames <==> c in other) && (forall o :: o in owners <==> o in holders)
    requires Canon(current) == Canon(same) && SameChain(chain, alike)
    ensures SameOutcome(Follow(cnames, owners, current, chain), Follow(other, holders, same, alike))
    decreases DEPTH + 1 - |chain|
  {
    hide Canon, Step, SameChain;
    StepPermuted(cnames, owners, current, chain, other, holders, same, alike);
    var r, q := Step(cnames, owners, current, chain), Step(other, holders, same, alike);
    SameLength(chain, alike);
    if r.Reached? && r.chain != chain {
      SameLength(r.chain, q.chain);
      FollowPermuted(cnames, owners, r.last, r.chain, other, holders, q.last, q.chain);
    }
  }

  lemma SameLength(chain: seq<CnameRecord>, other: seq<CnameRecord>)
    requires SameChain(chain, other)
    ensures |chain| == |other|
  {
  }

  lemma PermutationInvariant(cnames: seq<CnameRecord>, other: seq<CnameRecord>, owners: seq<Name>, question: Name)
    requires multiset(cnames) == multiset(other)
    ensures SameOutcome(Follow(cnames, owners, question, []), Follow(other, owners, question, []))
  {
    hide Follow, SameOutcome;
    assert forall c :: c in cnames <==> c in multiset(cnames);
    assert forall c :: c in other <==> c in multiset(other);
    FollowPermuted(cnames, owners, question, [], other, owners, question, []);
  }

  // ---------------------------------------------------------------- the loops

  datatype Candidate<T> = Candidate(owner: Name, ttl: u32, data: T)
  datatype Answered<T> = Answered(data: T, recordTtl: u32, effectiveTtl: u32)
  datatype ParseStatus = ParseOk | AliasOnly | NoData | NxDomain | RcodeError | ParseLimit | ParseMalformed
      | ParseMemory

  function Owners<T>(records: seq<Candidate<T>>): (r: seq<Name>)
    ensures |r| == |records| && forall i :: 0 <= i < |records| ==> r[i] == records[i].owner
  {
    seq(|records|, i requires 0 <= i < |records| => records[i].owner)
  }

  /** The records a name holds, none living longer than the way there. */
  function Selected<T>(records: seq<Candidate<T>>, name: Name, ttl: u32): (r: seq<Answered<T>>) {
    if records == [] then []
    else
      var before, c := Selected(records[..|records| - 1], name, ttl), records[|records| - 1];
      if Canon(c.owner) == Canon(name) then before + [Answered(c.data, c.ttl, IpcAssembly.Lesser(c.ttl, ttl))]
      else before
  }

  lemma HoldsLonger(owners: seq<Name>, owner: Name, name: Name)
    ensures Holds(owners + [owner], name) <==> Holds(owners, name) || Canon(owner) == Canon(name)
  {
    hide Canon;
    assert forall o :: o in owners ==> o in owners + [owner];
    assert owner in owners + [owner];
  }

  lemma {:induction false} SelectedHolds<T>(records: seq<Candidate<T>>, name: Name, ttl: u32)
    ensures Selected(records, name, ttl) != [] <==> Holds(Owners(records), name)
    ensures forall a :: a in Selected(records, name, ttl) ==> a.effectiveTtl == IpcAssembly.Lesser(a.recordTtl, ttl)
  {
    hide Canon, Holds;
    if records == [] {
      NothingHeld(Owners(records), name);
    } else {
      var n := |records| - 1;
      SelectedHolds(records[..n], name, ttl);
      HoldsLonger(Owners(records[..n]), records[n].owner, name);
      assert Owners(records) == Owners(records[..n]) + [records[n].owner];
    }
  }

  lemma NothingHeld(owners: seq<Name>, name: Name)
    requires owners == []
    ensures !Holds(owners, name)
  {
  }

  method FindOwner<T>(records: seq<Candidate<T>>, current: Name) returns (found: bool)
    ensures found == Holds(Owners(records), current)
  {
    hide Canon;
    var k := 0;
    while k < |records|
      invariant 0 <= k <= |records| && forall i :: 0 <= i < k ==> Canon(records[i].owner) != Canon(current)
    {
      var same := NameEqual(records[k].owner, current);
      if same {
        assert Owners(records)[k] == records[k].owner;
        return true;
      }
      k := k + 1;
    }
    found := false;
  }

  lemma {:induction false} ConflictStays(cnames: seq<CnameRecord>, current: Name, k: nat)
    requires k <= |cnames| && MatchOf(cnames[..k], current).Conflict?
    ensures MatchOf(cnames, current).Conflict?
    decreases |cnames|
  {
    hide Canon;
    if k == |cnames| {
      assert cnames[..k] == cnames;
    } else {
      var n := |cnames| - 1;
      assert cnames[..n][..k] == cnames[..k];
      ConflictStays(cnames[..n], current, k);
    }
  }

  method FindMatch(cnames: seq<CnameRecord>, current: Name) returns (m: Match)
    ensures m == MatchOf(cnames, current)
  {
    hide Canon;
    m := Nothing;
    var k := 0;
    while k < |cnames|
      invariant 0 <= k <= |cnames| && m == MatchOf(cnames[..k], current) && !m.Conflict?
    {
      var c := cnames[k];
      assert cnames[..k + 1][..k] == cnames[..k];
      var same := NameEqual(c.owner, current);
      if same {
        if m.Nothing? {
          m := Match(c, c.ttl);
        } else {
          var agrees := NameEqual(m.first.target, c.target);
          if !agrees {
            ConflictStays(cnames, current, k + 1);
            return Conflict;
          }
          m := Match(m.first, if c.ttl < m.ttl then c.ttl else m.ttl);
        }
      }
      k := k + 1;
    }
    assert cnames[..k] == cnames;
  }

  method FindVisited(chain: seq<CnameRecord>, target: Name) returns (found: bool)
    ensures found == Revisits(chain, target)
  {
    hide Canon;
    var k := 0;
    while k < |chain|
      invariant 0 <= k <= |chain| && forall i :: 0 <= i < k ==> Canon(chain[i].owner) != Canon(target)
    {
      var same := NameEqual(chain[k].owner, target);
      if same {
        return true;
      }
      k := k + 1;
    }
    found := false;
  }

  /** Walks the aliases of a response. */
  method Walk<T>(records: seq<Candidate<T>>, cnames: seq<CnameRecord>, question: Name) returns (r: Outcome, ttl: u32)
    ensures r == Follow(cnames, Owners(records), question, [])
    ensures r.Reached? ==> ttl == IpcAssembly.ChainTtl(r.chain)
  {
    hide Canon, MatchOf, Holds, Revisits;
    var chain: seq<CnameRecord>, current := [], question;
    ttl := IpcAssembly.TTL_MAX;
    while true
      invariant Follow(cnames, Owners(records), question, []) == Follow(cnames, Owners(records), current, chain)
      invariant |chain| <= DEPTH && ttl == IpcAssembly.ChainTtl(chain)
      decreases DEPTH + 1 - |chain|
    {
      var holds := FindOwner(records, current);
      var m := FindMatch(cnames, current);
      if m.Conflict? {
        return Broken, ttl;
      }
      if m.Nothing? {
        return Reached(chain, current), ttl;
      }
      if holds {
        return Broken, ttl;
      }
      if |chain| == DEPTH {
        return TooDeep, ttl;
      }
      var visited := FindVisited(chain, m.first.target);
      if visited {
        return Broken, ttl;
      }
      var link := m.first.(ttl := m.ttl);
      assert (chain + [link])[..|chain|] == chain;
      chain := chain + [link];
      ttl := if m.ttl < ttl then m.ttl else ttl;
      current := m.first.target;
    }
    assert false;
  }

  method Select<T>(records: seq<Candidate<T>>, name: Name, ttl: u32) returns (answers: seq<Answered<T>>)
    ensures answers == Selected(records, name, ttl)
  {
    hide Canon;
    answers := [];
    var k := 0;
    while k < |records|
      invariant 0 <= k <= |records| && answers == Selected(records[..k], name, ttl)
    {
      assert records[..k + 1][..k] == records[..k];
      var same := NameEqual(records[k].owner, name);
      if same {
        answers := answers + [Answered(records[k].data, records[k].ttl, IpcAssembly.Lesser(records[k].ttl, ttl))];
      }
      k := k + 1;
    }
    assert records[..k] == records;
  }

  /** The chain of a response and the records at its end. */
  method ChainBuild<T>(records: seq<Candidate<T>>, cnames: seq<CnameRecord>, question: Name, memory: nat -> bool)
    returns (status: ParseStatus, chain: seq<CnameRecord>, canonical: Name, answers: seq<Answered<T>>)
    ensures var r := Follow(cnames, Owners(records), question, []);
            && (status.ParseOk? || status.AliasOnly? || status.NoData? ==>
                  && r.Reached? && chain == r.chain && canonical == r.last && Canonical(question, chain, canonical)
                  && answers == Selected(records, canonical, IpcAssembly.ChainTtl(chain))
                  && (status.ParseOk? <==> answers != []) && (status.NoData? <==> answers == [] && chain == []))
            && ((forall k :: memory(k)) ==> (status, answers) == Built(records, cnames, question))
            && !status.NxDomain? && !status.RcodeError?
  {
    hide Canon, Follow, Selected, Canonical;
    chain, canonical, answers := [], [], [];
    if cnames != [] && !memory(0) {
      return ParseMemory, chain, canonical, answers;
    }
    var r, ttl := Walk(records, cnames, question);
    if r.TooDeep? {
      return ParseLimit, chain, canonical, answers;
    }
    if r.Broken? {
      return ParseMalformed, chain, canonical, answers;
    }
    FollowCanonical(cnames, Owners(records), question);
    chain, canonical := r.chain, r.last;
    answers := Select(records, canonical, ttl);
    if answers == [] {
      status := if chain == [] then NoData else AliasOnly;
    } else {
      status := if memory(1) then ParseOk else ParseMemory;
    }
  }

  // ---------------------------------------------------------------- the whole answer and the order of its records

  /** What a response with enough memory comes to. */
  function Built<T>(records: seq<Candidate<T>>, cnames: seq<CnameRecord>,
      question: Name): (r: (ParseStatus, seq<Answered<T>>)) {
    match Follow(cnames, Owners(records), question, [])
    case TooDeep => (ParseLimit, [])
    case Broken => (ParseMalformed, [])
    case Reached(chain, last) =>
      var answers := Selected(records, last, IpcAssembly.ChainTtl(chain));
      (if answers != [] then ParseOk else if chain == [] then NoData else AliasOnly, answers)
  }

  lemma {:induction false} SelectedJoined<T>(a: seq<Candidate<T>>, b: seq<Candidate<T>>, name: Name, ttl: u32)
    ensures Selected(a + b, name, ttl) == Selected(a, name, ttl) + Selected(b, name, ttl)
    decreases b
  {
    hide Canon;
    if b == [] {
      assert a + b == a;
    } else {
      var n := |b| - 1;
      SelectedJoined(a, b[..n], name, ttl);
      assert (a + b)[..|a| + n] == a + b[..n] && (a + b)[|a| + n] == b[n];
    }
  }

  /** Reordering the records reorders the answers. */
  lemma {:induction false} SelectedPermuted<T>(records: seq<Candidate<T>>, others: seq<Candidate<T>>, name: Name,
      same: Name, ttl: u32)
    requires multiset(records) == multiset(others) && Canon(name) == Canon(same)
    ensures multiset(Selected(records, name, ttl)) == multiset(Selected(others, same, ttl))
    decreases records
  {
    hide Canon, Selected;
    assert |multiset(records)| == |records| && |multiset(others)| == |others|;
    if records == [] {
      SelectedNothing<T>(name, ttl);
      SelectedNothing<T>(same, ttl);
    } else {
      var n, c := |records| - 1, records[|records| - 1];
      assert c in multiset(others);
      var i :| 0 <= i < |others| && others[i] == c;
      var front, back := others[..i], others[i + 1..];
      assert others == front + ([c] + back) && records == records[..n] + [c];
      OneLess(records[..n], front, c, back);
      SelectedPermuted(records[..n], front + back, name, same, ttl);
      SelectedJoined(records[..n], [c], name, ttl);
      SelectedJoined(front, [c] + back, same, ttl);
      SelectedJoined([c], back, same, ttl);
      SelectedJoined(front, back, same, ttl);
      SelectedOne(c, name, same, ttl);
    }
  }

  lemma OneLess<X>(rest: seq<X>, front: seq<X>, c: X, back: seq<X>)
    requires multiset(rest + [c]) == multiset(front + ([c] + back))
    ensures multiset(rest) == multiset(front + back)
  {
    var a, b := multiset(rest), multiset(front + back);
    assert multiset(rest + [c]) == a + multiset{c};
    assert multiset(front + ([c] + back)) == b + multiset{c};
    assert a == (a + multiset{c}) - multiset{c} && b == (b + multiset{c}) - multiset{c};
  }

  lemma SelectedNothing<T>(name: Name, ttl: u32)
    ensures Selected<T>([], name, ttl) == []
  {
  }

  lemma SelectedOne<T>(c: Candidate<T>, name: Name, same: Name, ttl: u32)
    requires Canon(name) == Canon(same)
    ensures Selected([c], name, ttl) == Selected([c], same, ttl)
  {
    hide Canon;
    assert [c][..0] == [];
  }

  lemma {:induction false} SameLives(chain: seq<CnameRecord>, other: seq<CnameRecord>)
    requires SameChain(chain, other)
    ensures IpcAssembly.ChainTtl(chain) == IpcAssembly.ChainTtl(other)
  {
    hide Canon;
    if chain != [] {
      SameLives(chain[..|chain| - 1], other[..|chain| - 1]);
    }
  }

  lemma SameOwners<T>(records: seq<Candidate<T>>, others: seq<Candidate<T>>, o: Name)
    requires multiset(records) == multiset(others)
    ensures o in Owners(records) ==> o in Owners(others)
  {
    if o in Owners(records) {
      var i :| 0 <= i < |records| && Owners(records)[i] == o;
      assert records[i] in multiset(others);
      var j :| 0 <= j < |others| && others[j] == records[i];
      assert Owners(others)[j] == o;
    }
  }

  /** The outcome of a response and the answers it holds do not depend on the order of any of its records. */
  lemma BuiltPermuted<T>(records: seq<Candidate<T>>, others: seq<Candidate<T>>, cnames: seq<CnameRecord>,
      aliases: seq<CnameRecord>, question: Name)
    requires multiset(records) == multiset(others) && multiset(cnames) == multiset(aliases)
    ensures var r, q := Built(records, cnames, question), Built(others, aliases, question);
            r.0 == q.0 && multiset(r.1) == multiset(q.1)
  {
    hide Canon, Follow, Selected, IpcAssembly.ChainTtl, Owners;
    forall c
      ensures c in cnames <==> c in aliases
    {
      assert c in cnames <==> c in multiset(cnames);
      assert c in aliases <==> c in multiset(aliases);
    }
    forall o
      ensures o in Owners(records) <==> o in Owners(others)
    {
      SameOwners(records, others, o);
      SameOwners(others, records, o);
    }
    FollowPermuted(cnames, Owners(records), question, [], aliases, Owners(others), question, []);
    var r, q := Follow(cnames, Owners(records), question, []), Follow(aliases, Owners(others), question, []);
    if r.Reached? {
      SameLives(r.chain, q.chain);
      SelectedPermuted(records, others, r.last, q.last, IpcAssembly.ChainTtl(r.chain));
      var a, b := Selected(records, r.last, IpcAssembly.ChainTtl(r.chain)),
        Selected(others, q.last, IpcAssembly.ChainTtl(q.chain));
      assert |multiset(a)| == |a| && |multiset(b)| == |b|;
    }
  }

  // ---------------------------------------------------------------- what a chain is good for

  /** A simple path from the question to the canonical name. */
  ghost predicate Canonical(question: Name, chain: seq<CnameRecord>, canonical: Name) {
    var nodes := Path(question, chain);
    && |chain| <= DEPTH && Distinct(nodes) && nodes[|chain|] == Canon(canonical)
    && forall i :: 0 <= i < |chain| ==> Canon(chain[i].owner) == nodes[i]
  }

  lemma FollowCanonical(cnames: seq<CnameRecord>, owners: seq<Name>, question: Name)
    ensures var r := Follow(cnames, owners, question, []); r.Reached? ==> Canonical(question, r.chain, r.last)
  {
    hide Follow, Canon, Linked;
    StartWalks(cnames, owners, question);
    FollowSound(cnames, owners, question, [], question);
  }

  /** Every link of a chain copies the names of an alias in the response. */
  ghost predicate Drawn(cnames: seq<CnameRecord>, chain: seq<CnameRecord>) {
    forall x :: x in chain ==> exists c :: c in cnames && c.owner == x.owner && c.target == x.target
  }

  lemma {:induction false} FollowDrawn(cnames: seq<CnameRecord>, owners: seq<Name>, current: Name,
      chain: seq<CnameRecord>)
    requires Drawn(cnames, chain) && current == (if chain == [] then current else chain[|chain| - 1].target)
    ensures var r := Follow(cnames, owners, current, chain);
            r.Reached? ==>
              Drawn(cnames, r.chain) && |r.chain| >= |chain|
                && r.last == if r.chain == [] then current else r.chain[|r.chain| - 1].target
    decreases DEPTH + 1 - |chain|
  {
    hide Canon, MatchOf, Holds, Revisits, Leads, Disagree, Ends;
    MatchMeans(cnames, current);
    var next := Step(cnames, owners, current, chain);
    if next.Reached? && next.chain != chain {
      FollowDrawn(cnames, owners, next.last, next.chain);
    }
  }

  ghost predicate Fixed(question: Name, chain: seq<CnameRecord>) {
    Canon(question) == question && forall c :: c in chain ==> Canon(c.owner) == c.owner && Canon(c.target) == c.target
  }

  lemma FixedPath(question: Name, chain: seq<CnameRecord>)
    requires Fixed(question, chain)
    ensures Path(question, chain) == IpcAssembly.Nodes(question, chain)
  {
    hide Canon;
    assert forall i :: 0 <= i < |chain| ==> chain[i] in chain;
  }

  lemma FixedSimple(question: Name, chain: seq<CnameRecord>, canonical: Name)
    requires Fixed(question, chain) && Canonical(question, chain, canonical)
    ensures IpcAssembly.SimplePath(question, chain)
  {
    hide Canon, IpcAssembly.Nodes, Path;
    FixedPath(question, chain);
    assert forall i :: 0 <= i < |chain| ==> chain[i] in chain;
  }

  /** A response in normal form gives a chain that the reply assembly of the relay accepts as its path. */
  lemma ChainFitsAssembly(cnames: seq<CnameRecord>, owners: seq<Name>, question: Name)
    requires Normalized(question) && forall c :: c in cnames ==> Normalized(c.owner) && Normalized(c.target)
    ensures var r := Follow(cnames, owners, question, []);
            r.Reached? ==>
              && IpcAssembly.SimplePath(question, r.chain) && |r.chain| <= CNAME_LIMIT
              && (forall c :: c in r.chain ==> Normalized(c.owner) && Normalized(c.target))
              && r.last == if r.chain == [] then question else r.chain[|r.chain| - 1].target
  {
    hide Follow, Canon, Normalized, IpcAssembly.SimplePath, Path;
    var r := Follow(cnames, owners, question, []);
    if r.Reached? {
      FollowCanonical(cnames, owners, question);
      FollowDrawn(cnames, owners, question, []);
      NormalizedIsCanonical(question);
      forall c | c in r.chain
        ensures Normalized(c.owner) && Normalized(c.target) && Canon(c.owner) == c.owner && Canon(c.target) == c.target
      {
        NormalizedIsCanonical(c.owner);
        NormalizedIsCanonical(c.target);
      }
      FixedSimple(question, r.chain, r.last);
    }
  }
}
