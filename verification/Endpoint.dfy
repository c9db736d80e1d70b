/** Choosing the address a connection is forwarded to, from what the route's cache entries hold at one
    moment, and naming the entries the choice waits for.
 */
module Endpoint {
  import opened Basics
  import opened Names

  const REQUIREMENTS: nat := 3
  const TEXT_SIZE: nat := 1025
  const SRV_LIMIT: nat := 128
  const ROOT: Name := [DOT]

  type EntryId = nat

  datatype Family = V4 | V6
  datatype Address = Address(family: Family, usable: bool, text: seq<byte>)
  datatype Srv = Srv(priority: u16, weight: u16, port: u16, target: Name)

  datatype View = Empty | Positive(addresses: seq<Address>, srvs: seq<Srv>) | Negative
  /** What a waiter itself knows of an entry: nothing, a transient answer, or that there will be none. */
  datatype Overlay = Clear | Transient(addresses: seq<Address>, srvs: seq<Srv>, completedAt: nat) | Unavailable

  datatype Target = NumericTarget(address: Address) | HostsTarget(addresses: seq<Address>)
      | DnsTarget(ipv4: Option<EntryId>, ipv6: Option<EntryId>)
  datatype NamedTarget = NamedTarget(name: Name, target: Target)
  datatype Source =
    | Numeric(address: Address)
    | Hosts(addresses: seq<Address>)
    | DnsAddress(ipv4: Option<EntryId>, ipv6: Option<EntryId>)
    | DnsSrv(srv: Option<EntryId>, targets: seq<NamedTarget>)
    | NoSource
  datatype Route = Route(configured: Name, vhost: Name, pheader: bool, rewrite: bool, destination: nat, port: u16,
      source: Source)

  /** What an evaluation sees: the route of the virtual host, and every cache entry as it is now. */
  datatype World = World(route: Option<Route>, generation: nat, kind: EntryId -> QueryKind, cached: EntryId -> View)

  datatype Snapshot = Snapshot(address: Address, configured: Name, target: Name, vhost: Name, destination: nat,
      generation: nat, port: u16, pheader: bool, rewrite: bool)
  datatype Requirement = Requirement(entry: EntryId, pending: bool)
  datatype AddressStatus = AddressOk(address: Address) | AddressBad | AddressLimit | AddressPending | AddressUnavailable
  datatype SelectStatus = Selected(snapshot: Snapshot) | BadArgument | Contradictory | Limit | NoRoute | Pending
      | ServiceUnavailable | UnavailableRoute

  // ---------------------------------------------------------------- scans

  /** The first usable address of a family. */
  function FamilyFirst(addresses: seq<Address>, family: Family): (r: Option<Address>)
    ensures r.Some? ==> r.value in addresses && r.value.family == family && r.value.usable
    ensures r.None? ==> forall a :: a in addresses ==> a.family != family || !a.usable
  {
    if addresses == [] then None
    else if addresses[0].family == family && addresses[0].usable then Some(addresses[0])
    else FamilyFirst(addresses[1..], family)
  }

  method FamilySelect(addresses: seq<Address>, family: Family) returns (r: Option<Address>)
    ensures r == FamilyFirst(addresses, family)
  {
    var k := 0;
    assert addresses[0..] == addresses;
    while k < |addresses|
      invariant 0 <= k <= |addresses| && FamilyFirst(addresses, family) == FamilyFirst(addresses[k..], family)
    {
      if addresses[k].family == family && addresses[k].usable {
        return Some(addresses[k]);
      }
      assert addresses[k..][1..] == addresses[k + 1..];
      k := k + 1;
    }
    r := None;
  }

  function Other(family: Family): (r: Family) {
    if family.V4? then V6 else V4
  }

  function AddressesSelect(addresses: seq<Address>, preferred: Family): (r: AddressStatus)
    ensures r.AddressOk? ==> r.address in addresses && r.address.usable
    ensures r.AddressOk? || r.AddressUnavailable?
  {
    var first := FamilyFirst(addresses, preferred);
    if first.Some? then AddressOk(first.value)
    else
      var second := FamilyFirst(addresses, Other(preferred));
      if second.Some? then AddressOk(second.value) else AddressUnavailable
  }

  datatype SrvChoice = Chosen(record: Srv) | SrvBad | SrvContradictory | SrvServiceUnavailable

  predicate Best(records: seq<Srv>, k: nat)
    requires k < |records|
  {
    && (forall r :: r in records ==> records[k].priority <= r.priority)
    && (forall r :: r in records && r.priority == records[k].priority ==> r.weight <= records[k].weight)
  }

  /** What a set of service records asks for: the heaviest record of the first priority, the earliest of
      those; nothing if the service is withdrawn. */
  ghost predicate ChoiceOf(records: seq<Srv>, c: SrvChoice) {
    if records == [] || |records| > SRV_LIMIT then c.SrvBad?
    else if exists r :: r in records && r.target == ROOT then
      if exists r :: r in records && r.target != ROOT then c.SrvContradictory? else c.SrvServiceUnavailable?
    else if exists r :: r in records && r.target == [] then c.SrvBad?
    else
      && c.Chosen?
      && exists k ::
           && 0 <= k < |records| && records[k] == c.record && Best(records, k)
           && forall j :: 0 <= j < k ==> !Best(records, j)
  }

  /** There is exactly one such choice. */
  lemma ChoiceUnique(records: seq<Srv>, c: SrvChoice, d: SrvChoice)
    requires ChoiceOf(records, c) && ChoiceOf(records, d)
    ensures c == d
  {
    if c.Chosen? {
      var k :| 0 <= k < |records| && records[k] == c.record && Best(records, k)
        && forall j :: 0 <= j < k ==> !Best(records, j);
      var m :| 0 <= m < |records| && records[m] == d.record && Best(records, m)
        && forall j :: 0 <= j < m ==> !Best(records, j);
      assert k == m;
    }
  }

  method SrvScan(records: seq<Srv>) returns (root: bool, named: bool, bare: bool, priority: u16)
    ensures root == exists r :: r in records && r.target == ROOT
    ensures named == exists r :: r in records && r.target != ROOT
    ensures bare == exists r :: r in records && r.target == []
    ensures forall r :: r in records ==> priority <= r.priority
    ensures records != [] ==> exists r :: r in records && r.priority == priority
  {
    root, named, bare, priority := false, false, false, 0xFFFF;
    var k := 0;
    while k < |records|
      invariant 0 <= k <= |records|
      invariant root == exists r :: r in records[..k] && r.target == ROOT
      invariant named == exists r :: r in records[..k] && r.target != ROOT
      invariant bare == exists r :: r in records[..k] && r.target == []
      invariant forall r :: r in records[..k] ==> priority <= r.priority
      invariant if k == 0 then priority == 0xFFFF else exists r :: r in records[..k] && r.priority == priority
    {
      var c := records[k];
      assert records[..k + 1] == records[..k] + [c];
      if c.target == ROOT {
        root := true;
      } else {
        named := true;
      }
      bare := bare || c.target == [];
      if c.priority < priority {
        priority := c.priority;
      } else if k == 0 {
        assert c.priority == priority;
      }
      k := k + 1;
    }
    assert records[..k] == records;
  }

  method WeightScan(records: seq<Srv>, priority: u16) returns (weight: u16)
    requires exists r :: r in records && r.priority == priority
    ensures forall r :: r in records && r.priority == priority ==> r.weight <= weight
    ensures exists r :: r in records && r.priority == priority && r.weight == weight
  {
    weight := 0;
    ghost var seen := false;
    var k := 0;
    while k < |records|
      invariant 0 <= k <= |records|
      invariant forall r :: r in records[..k] && r.priority == priority ==> r.weight <= weight && seen
      invariant if seen then exists r :: r in records[..k] && r.priority == priority && r.weight == weight
                else weight == 0
    {
      var c := records[k];
      assert records[..k + 1] == records[..k] + [c];
      if c.priority == priority && c.weight > weight {
        weight := c.weight;
      }
      seen := seen || c.priority == priority;
      assert c.priority == priority && c.weight == weight ==> c in records[..k + 1];
      k := k + 1;
    }
    assert records[..k] == records;
  }

  /** Looks through the records once for each question the choice depends on. */
  method SrvRecordSelect(records: seq<Srv>) returns (c: SrvChoice)
    ensures ChoiceOf(records, c)
  {
    if records == [] || |records| > SRV_LIMIT {
      return SrvBad;
    }
    var root, named, bare, priority := SrvScan(records);
    if root {
      return if named then SrvContradictory else SrvServiceUnavailable;
    }
    if bare {
      return SrvBad;
    }
    var weight := WeightScan(records, priority);
    var k := 0;
    ghost var r :| r in records && r.priority == priority && r.weight == weight;
    ghost var found :| 0 <= found < |records| && records[found] == r;
    c := SrvBad;
    while k < |records|
      invariant 0 <= k <= found
                && forall j :: 0 <= j < k ==> records[j].priority != priority || records[j].weight != weight
    {
      if records[k].priority == priority && records[k].weight == weight {
        FirstIsBest(records, k, priority, weight);
        return Chosen(records[k]);
      }
      k := k + 1;
    }
    assert false;
  }

  lemma FirstIsBest(records: seq<Srv>, k: nat, priority: u16, weight: u16)
    requires k < |records| && records[k].priority == priority && records[k].weight == weight
    requires forall r :: r in records ==> priority <= r.priority
    requires forall r :: r in records && r.priority == priority ==> r.weight <= weight
    requires forall j :: 0 <= j < k ==> records[j].priority != priority || records[j].weight != weight
    ensures Best(records, k) && forall j :: 0 <= j < k ==> !Best(records, j)
  {
    assert records[k] in records;
    assert forall j :: 0 <= j < k ==> records[j] in records;
  }

  function FirstBest(records: seq<Srv>, from: nat): (r: Option<nat>)
    requires from <= |records|
    ensures r.Some? ==>
            from <= r.value < |records| && Best(records, r.value)
              && forall j :: from <= j < r.value ==> !Best(records, j)
    ensures r.None? ==> forall j :: from <= j < |records| ==> !Best(records, j)
    decreases |records| - from
  {
    if from == |records| then None else if Best(records, from) then Some(from) else FirstBest(records, from + 1)
  }

  function SrvSelect(records: seq<Srv>): (c: SrvChoice) {
    if records == [] || |records| > SRV_LIMIT then SrvBad
    else if exists r :: r in records && r.target == ROOT then
      if exists r :: r in records && r.target != ROOT then SrvContradictory else SrvServiceUnavailable
    else if exists r :: r in records && r.target == [] then SrvBad
    else
      var k := FirstBest(records, 0);
      if k.Some? then Chosen(records[k.value]) else SrvBad
  }

  /** The scan finds what the definition asks for. */
  lemma SrvSelectExactly(records: seq<Srv>, c: SrvChoice)
    requires ChoiceOf(records, c)
    ensures c == SrvSelect(records)
  {
    hide Best;
    if c.Chosen? {
      var k :| 0 <= k < |records| && records[k] == c.record && Best(records, k)
        && forall j :: 0 <= j < k ==> !Best(records, j);
      var m := FirstBest(records, 0);
      assert m == Some(k);
    }
  }

  // ---------------------------------------------------------------- requirements

  function Seen(w: World, overlays: map<EntryId, Overlay>, entry: EntryId): (r: View) {
    var overlay := if entry in overlays then overlays[entry] else Clear;
    match overlay
    case Clear => w.cached(entry)
    case Unavailable => Negative
    case Transient(addresses, srvs, _) => Positive(addresses, srvs)
  }

  function FindRequirement(reqs: seq<Requirement>, entry: EntryId): (r: Option<nat>)
    ensures r.Some? ==> r.value < |reqs| && reqs[r.value].entry == entry
    ensures r.None? ==> forall i :: 0 <= i < |reqs| ==> reqs[i].entry != entry
  {
    if reqs == [] then None
    else if reqs[0].entry == entry then Some(0)
    else
      var k := FindRequirement(reqs[1..], entry);
      if k.Some? then Some(k.value + 1) else None
  }

  /** Names an entry the choice depends on; one named before only becomes more urgent. */
  function Add(reqs: seq<Requirement>, entry: EntryId, pending: bool): (r: Option<seq<Requirement>>) {
    var k := FindRequirement(reqs, entry);
    if k.Some? then Some(reqs[k.value := Requirement(entry, reqs[k.value].pending || pending)])
    else if |reqs| >= REQUIREMENTS then None
    else Some(reqs + [Requirement(entry, pending)])
  }

  /** The requirements are few, distinct, and pending exactly where nothing is known. */
  ghost predicate Sound(w: World, overlays: map<EntryId, Overlay>, reqs: seq<Requirement>) {
    && |reqs| <= REQUIREMENTS && (forall i, j :: 0 <= i < j < |reqs| ==> reqs[i].entry != reqs[j].entry)
    && forall i :: 0 <= i < |reqs| ==> (reqs[i].pending <==> Seen(w, overlays, reqs[i].entry).Empty?)
  }

  function Named(reqs: seq<Requirement>): (r: set<EntryId>) {
    set q | q in reqs :: q.entry
  }

  lemma AddKeeps(w: World, overlays: map<EntryId, Overlay>, reqs: seq<Requirement>, entry: EntryId)
    requires Sound(w, overlays, reqs)
    ensures var r := Add(reqs, entry, Seen(w, overlays, entry).Empty?);
            && (r.Some? ==> Sound(w, overlays, r.value) && Named(r.value) == Named(reqs) + {entry})
            && (r.None? ==> |reqs| == REQUIREMENTS)
  {
    hide Seen;
    var r := Add(reqs, entry, Seen(w, overlays, entry).Empty?);
    if r.Some? {
      var k := FindRequirement(reqs, entry);
      assert k.Some? ==> r.value == reqs;
      assert k.None? ==>
             forall q :: q in r.value <==> q in reqs || q == Requirement(entry, Seen(w, overlays, entry).Empty?);
      assert k.Some? ==> reqs[k.value] in reqs;
    }
  }

  // ---------------------------------------------------------------- choosing an address

  function KindOf(family: Family): (r: QueryKind) {
    if family.V4? then A else AAAA
  }

  function CacheFamily(w: World, overlays: map<EntryId, Overlay>, entry: Option<EntryId>, family: Family,
      reqs: seq<Requirement>): (r: (AddressStatus, seq<Requirement>)) {
    if entry.None? then (AddressUnavailable, reqs)
    else if w.kind(entry.value) != KindOf(family) then (AddressBad, reqs)
    else
      var view := Seen(w, overlays, entry.value);
      var more := Add(reqs, entry.value, view.Empty?);
      if more.None? then (AddressLimit, reqs)
      else if view.Empty? then (AddressPending, more.value)
      else if view.Negative? then (AddressUnavailable, more.value)
      else
        var first := FamilyFirst(view.addresses, family);
        (if first.Some? then AddressOk(first.value) else AddressBad, more.value)
  }

  predicate Final(s: AddressStatus) {
    s.AddressOk? || s.AddressBad? || s.AddressLimit?
  }

  function CacheSelect(w: World, overlays: map<EntryId, Overlay>, ipv4: Option<EntryId>, ipv6: Option<EntryId>,
      preferred: Family, reqs: seq<Requirement>): (r: (AddressStatus, seq<Requirement>)) {
    var first, second := if preferred.V4? then ipv4 else ipv6, if preferred.V4? then ipv6 else ipv4;
    if first.None? && second.None? then (AddressUnavailable, reqs)
    else
      var (s, more) := CacheFamily(w, overlays, first, preferred, reqs);
      if Final(s) then (s, more)
      else
        var (t, most) := CacheFamily(w, overlays, second, Other(preferred), more);
        if Final(t) then (t, most)
        else (if s.AddressPending? || t.AddressPending? then AddressPending else AddressUnavailable, most)
  }

  function TargetSelect(w: World, overlays: map<EntryId, Overlay>, target: Target, preferred: Family,
      reqs: seq<Requirement>): (r: (AddressStatus, seq<Requirement>)) {
    match target
    case NumericTarget(address) => (if address.usable then AddressOk(address) else AddressUnavailable, reqs)
    case HostsTarget(addresses) => (AddressesSelect(addresses, preferred), reqs)
    case DnsTarget(ipv4, ipv6) => CacheSelect(w, overlays, ipv4, ipv6, preferred, reqs)
  }

  function FindTarget(targets: seq<NamedTarget>, name: Name): (r: Option<Target>) {
    if targets == [] then None
    else if targets[0].name == name then Some(targets[0].target) else FindTarget(targets[1..], name)
  }

  function Meaning(s: AddressStatus, snapshot: Address -> Option<Snapshot>): (r: SelectStatus) {
    match s
    case AddressOk(address) => (var found := snapshot(address); if found.Some? then Selected(found.value) else Limit)
    case AddressPending => Pending
    case AddressLimit => Limit
    case AddressUnavailable => UnavailableRoute
    case AddressBad => BadArgument
  }

  function TakeSnapshot(w: World, route: Route, target: Name, port: u16, address: Address): (r: Option<Snapshot>) {
    if |route.configured| >= TEXT_SIZE || |target| >= TEXT_SIZE || |route.vhost| >= TEXT_SIZE then None
    else Some(Snapshot(address, route.configured, target, route.vhost, route.destination, w.generation, port,
      route.pheader, route.rewrite))
  }

  function EvaluateSrv(w: World, overlays: map<EntryId, Overlay>, route: Route, entry: EntryId,
      targets: seq<NamedTarget>, preferred: Family): (r: (SelectStatus, seq<Requirement>)) {
    var view := Seen(w, overlays, entry);
    var reqs := [Requirement(entry, view.Empty?)];
    if view.Empty? then (Pending, reqs)
    else if view.Negative? then (UnavailableRoute, reqs)
    else
      match SrvSelect(view.srvs)
      case SrvBad => (BadArgument, reqs)
      case SrvContradictory => (Contradictory, reqs)
      case SrvServiceUnavailable => (ServiceUnavailable, reqs)
      case Chosen(record) =>
        var target := FindTarget(targets, record.target);
        if target.None? then (UnavailableRoute, reqs)
        else
          var (s, more) := TargetSelect(w, overlays, target.value, preferred, reqs);
          (Meaning(s, address => TakeSnapshot(w, route, record.target, record.port, address)), more)
  }

  /** One evaluation of a route. */
  function Evaluate(w: World, overlays: map<EntryId, Overlay>,
      preferred: Family): (r: (SelectStatus, seq<Requirement>)) {
    if w.generation == 0 then (BadArgument, [])
    else if w.route.None? then (NoRoute, [])
    else
      var route := w.route.value;
      var plain := address => TakeSnapshot(w, route, route.configured, route.port, address);
      match route.source
      case Numeric(address) => (if address.usable then Meaning(AddressOk(address), plain) else UnavailableRoute, [])
      case Hosts(addresses) => (Meaning(AddressesSelect(addresses, preferred), plain), [])
      case DnsAddress(ipv4, ipv6) =>
        var (s, reqs) := CacheSelect(w, overlays, ipv4, ipv6, preferred, []);
        (Meaning(s, plain), reqs)
      case DnsSrv(srv, targets) =>
        if srv.None? || !w.kind(srv.value).SRV? then (BadArgument, [])
        else EvaluateSrv(w, overlays, route, srv.value, targets, preferred)
      case NoSource => (UnavailableRoute, [])
  }

  // ---------------------------------------------------------------- what an evaluation promises

  lemma FamilyKeeps(w: World, overlays: map<EntryId, Overlay>, entry: Option<EntryId>, family: Family,
      reqs: seq<Requirement>)
    requires Sound(w, overlays, reqs)
    ensures var (s, more) := CacheFamily(w, overlays, entry, family, reqs);
            && Sound(w, overlays, more) && Named(reqs) <= Named(more)
            && (s.AddressPending? ==> entry.Some? && Seen(w, overlays, entry.value).Empty?)
            && (!Final(s) ==> Named(more) == Named(reqs) + (if entry.Some? then {entry.value} else {}))
            && (Named(more) <= Named(reqs) + if entry.Some? then {entry.value} else {})
            && (s.AddressLimit? ==> |reqs| == REQUIREMENTS)
  {
    hide Seen, Sound, Named, FamilyFirst, Add;
    if entry.Some? {
      AddKeeps(w, overlays, reqs, entry.value);
    }
  }

  function Both(ipv4: Option<EntryId>, ipv6: Option<EntryId>): (r: set<EntryId>) {
    (if ipv4.Some? then {ipv4.value} else {}) + if ipv6.Some? then {ipv6.value} else {}
  }

  lemma SelectKeeps(w: World, overlays: map<EntryId, Overlay>, ipv4: Option<EntryId>, ipv6: Option<EntryId>,
      preferred: Family, reqs: seq<Requirement>)
    requires Sound(w, overlays, reqs) && |reqs| <= 1
    ensures var (s, more) := CacheSelect(w, overlays, ipv4, ipv6, preferred, reqs);
            && Sound(w, overlays, more) && Named(more) <= Named(reqs) + Both(ipv4, ipv6)
            && (s.AddressPending? ==>
               Named(more) == Named(reqs) + Both(ipv4, ipv6)
                 && exists e :: e in Both(ipv4, ipv6) && Seen(w, overlays, e).Empty?)
            && !s.AddressLimit?
  {
    hide Seen, Sound, Named, CacheFamily;
    var first, second := if preferred.V4? then ipv4 else ipv6, if preferred.V4? then ipv6 else ipv4;
    FamilyKeeps(w, overlays, first, preferred, reqs);
    var (s, more) := CacheFamily(w, overlays, first, preferred, reqs);
    FamilyKeeps(w, overlays, second, Other(preferred), more);
    FamilyShort(w, overlays, first, preferred, reqs);
    assert first.Some? ==> first.value in Both(ipv4, ipv6);
    assert second.Some? ==> second.value in Both(ipv4, ipv6);
  }

  lemma FamilyShort(w: World, overlays: map<EntryId, Overlay>, entry: Option<EntryId>, family: Family,
      reqs: seq<Requirement>)
    ensures |CacheFamily(w, overlays, entry, family, reqs).1| <= |reqs| + 1
  {
    hide Seen, FamilyFirst;
  }

  lemma TargetKeeps(w: World, overlays: map<EntryId, Overlay>, target: Target, preferred: Family,
      reqs: seq<Requirement>)
    requires Sound(w, overlays, reqs) && |reqs| <= 1
    ensures var (s, more) := TargetSelect(w, overlays, target, preferred, reqs);
            && Sound(w, overlays, more) && Named(more) <= Named(reqs) + Reach(target)
            && (s.AddressPending? ==>
               Named(more) == Named(reqs) + Reach(target)
                 && exists e :: e in Reach(target) && Seen(w, overlays, e).Empty?)
            && !s.AddressLimit?
  {
    hide Seen, Sound, Named, CacheSelect, AddressesSelect;
    if target.DnsTarget? {
      SelectKeeps(w, overlays, target.ipv4, target.ipv6, preferred, reqs);
    }
  }

  function Reach(target: Target): (r: set<EntryId>) {
    if target.DnsTarget? then Both(target.ipv4, target.ipv6) else {}
  }

  lemma NoneNamed(w: World, overlays: map<EntryId, Overlay>)
    ensures Sound(w, overlays, []) && Named([]) == {}
  {
  }

  lemma OneNamed(w: World, overlays: map<EntryId, Overlay>, entry: EntryId)
    ensures var reqs := [Requirement(entry, Seen(w, overlays, entry).Empty?)];
            Sound(w, overlays, reqs) && Named(reqs) == {entry}
  {
    hide Seen;
    var reqs := [Requirement(entry, Seen(w, overlays, entry).Empty?)];
    assert reqs[0] in reqs;
  }

  /** What is named is pending exactly where nothing is known, and a pending evaluation names something to
      wait for. */
  ghost predicate Waits(w: World, overlays: map<EntryId, Overlay>, r: (SelectStatus, seq<Requirement>)) {
    && Sound(w, overlays, r.1)
    && (r.0.Pending? ==> exists e :: e in Named(r.1) && Seen(w, overlays, e).Empty?)
  }

  lemma SrvWaits(w: World, overlays: map<EntryId, Overlay>, route: Route, entry: EntryId, targets: seq<NamedTarget>,
      preferred: Family)
    ensures Waits(w, overlays, EvaluateSrv(w, overlays, route, entry, targets, preferred))
  {
    hide Seen, Sound, Named, TargetSelect, SrvSelect, FindTarget, TakeSnapshot;
    OneNamed(w, overlays, entry);
    var view := Seen(w, overlays, entry);
    if view.Positive? && SrvSelect(view.srvs).Chosen? {
      var target := FindTarget(targets, SrvSelect(view.srvs).record.target);
      if target.Some? {
        TargetKeeps(w, overlays, target.value, preferred, [Requirement(entry, view.Empty?)]);
      }
    }
  }

  lemma EvaluateWaits(w: World, overlays: map<EntryId, Overlay>, preferred: Family)
    ensures Waits(w, overlays, Evaluate(w, overlays, preferred))
  {
    hide Seen, Sound, Named, CacheSelect, EvaluateSrv, AddressesSelect, TakeSnapshot;
    NoneNamed(w, overlays);
    if w.route.Some? {
      var source := w.route.value.source;
      if source.DnsAddress? {
        SelectKeeps(w, overlays, source.ipv4, source.ipv6, preferred, []);
      } else if source.DnsSrv? && source.srv.Some? {
        SrvWaits(w, overlays, w.route.value, source.srv.value, source.targets, preferred);
      }
    }
  }

  /** Between two evaluations some entries that nothing was known of may have been given up; everything else
      the first one named looks the same. */
  ghost predicate GivenUp(w: World, before: map<EntryId, Overlay>, after: map<EntryId, Overlay>, named: set<EntryId>) {
    forall e :: e in named ==>
      Seen(w, after, e) == Seen(w, before, e) || (Seen(w, before, e).Empty? && Seen(w, after, e).Negative?)
  }

  lemma SrvAgain(w: World, before: map<EntryId, Overlay>, after: map<EntryId, Overlay>, route: Route, entry: EntryId,
      targets: seq<NamedTarget>, preferred: Family)
    requires var r := EvaluateSrv(w, before, route, entry, targets, preferred);
             r.0.Pending? && GivenUp(w, before, after, Named(r.1))
    ensures Named(EvaluateSrv(w, after, route, entry, targets, preferred).1) <= Named(EvaluateSrv(w, before, route,
            entry, targets, preferred).1)
  {
    hide Seen, Sound, Named, TargetSelect, SrvSelect, FindTarget, TakeSnapshot;
    OneNamed(w, before, entry);
    OneNamed(w, after, entry);
    var view := Seen(w, before, entry);
    if view.Positive? && SrvSelect(view.srvs).Chosen? {
      var target := FindTarget(targets, SrvSelect(view.srvs).record.target);
      if target.Some? {
        TargetKeeps(w, before, target.value, preferred, [Requirement(entry, view.Empty?)]);
        TargetKeeps(w, after, target.value, preferred, [Requirement(entry, Seen(w, after, entry).Empty?)]);
      }
    }
  }

  /** A second evaluation names nothing the pending first one did not name. */
  lemma EvaluateAgain(w: World, before: map<EntryId, Overlay>, after: map<EntryId, Overlay>, preferred: Family)
    requires var r := Evaluate(w, before, preferred); r.0.Pending? && GivenUp(w, before, after, Named(r.1))
    ensures Named(Evaluate(w, after, preferred).1) <= Named(Evaluate(w, before, preferred).1)
  {
    hide Seen, Sound, Named, CacheSelect, EvaluateSrv, AddressesSelect, TakeSnapshot, GivenUp;
    NoneNamed(w, before);
    NoneNamed(w, after);
    var source := w.route.value.source;
    if source.DnsAddress? {
      SelectKeeps(w, before, source.ipv4, source.ipv6, preferred, []);
      SelectKeeps(w, after, source.ipv4, source.ipv6, preferred, []);
    } else if source.DnsSrv? && source.srv.Some? {
      SrvAgain(w, before, after, w.route.value, source.srv.value, source.targets, preferred);
    }
  }
}
