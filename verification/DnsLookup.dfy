/** Resolving a name across several queries: as long as a response ends in an alias, the name it leads to is
    asked next, and the chains are joined.
 */
module DnsLookup {
  import opened Basics
  import opened Names
  import opened IpcCodec
  import opened DnsChain
  import opened DnsNegative
  import IpcAssembly

  const NOERROR: nat := 0
  const SERVFAIL: nat := 2
  const NXDOMAIN: nat := 3
  const TEXT_LIMIT: nat := 1025
  const RECORD_LIMIT: nat := 128

  datatype LookupStatus = Found | NotFound | Empty | Permanent | Temporary | LookupLimit | LookupMalformed
      | LookupMemory | Truncated | BadLookup

  datatype Failure = NoMemory | BadPacket | PermanentFailure | TemporaryFailure | TruncatedAnswer | TooManyAnswers

  /** The outcome of one query: a failure before any answer could be read, or the records of the answer. */
  datatype Reply<T> =
    | Failed(failure: Failure)
    | Answer(question: Name, rcode: nat, records: seq<Candidate<T>>, cnames: seq<CnameRecord>,
      authority: seq<AuthorityRecord>)

  datatype Result<T> = Result(question: Name, rcode: nat, cnames: seq<CnameRecord>, canonical: Name,
      answers: seq<Answered<T>>, negative: Negative)

  function Blank<T>(): (r: Result<T>) {
    Result([], 0, [], [], [], IpcAssembly.NO_NEGATIVE)
  }

  /** A simple path leads from the question to the canonical name. */
  ghost predicate Simple(r: Result) {
    Canonical(r.question, r.cnames, r.canonical)
  }

  ghost predicate Capped<T>(answers: seq<Answered<T>>, ttl: u32) {
    forall a :: a in answers ==> a.effectiveTtl == IpcAssembly.Lesser(a.recordTtl, ttl)
  }

  function Denied(negative: NegativeStatus, status: ParseStatus): (r: ParseStatus) {
    match negative case SoaOk => status case SoaLimit => ParseLimit case SoaMalformed => ParseMalformed
  }

  predicate Settled(status: ParseStatus) {
    status.ParseOk? || status.AliasOnly? || status.NoData? || status.NxDomain?
  }

  // ---------------------------------------------------------------- names in normal form

  /** A name as the relay stores it. */
  predicate Plain(name: Name) {
    Normalized(name) && Storable(name)
  }

  predicate PlainLinks(cnames: seq<CnameRecord>) {
    forall c :: c in cnames ==> Plain(c.owner) && Plain(c.target)
  }

  /** A response as it is after reading: every name in normal form, at most so many answers, a response code of four
      bits. */
  ghost predicate PlainReply<T>(reply: Reply<T>, good: T -> bool) {
    reply.Answer? ==>
      && Plain(reply.question) && PlainLinks(reply.cnames) && reply.rcode <= RCODE_LIMIT
      && (forall s :: s in reply.authority && s.SoaRecord? ==> Plain(s.owner))
      && |reply.records| <= RECORD_LIMIT && (forall c :: c in reply.records ==> good(c.data))
  }

  ghost predicate PlainResult<T>(r: Result<T>, good: T -> bool) {
    && (r.question != [] ==> Plain(r.question)) && (r.canonical != [] ==> Plain(r.canonical)) && PlainLinks(r.cnames)
       && r.rcode <= RCODE_LIMIT
    && (r.negative.valid ==> Plain(r.negative.owner))
    && |r.answers| <= RECORD_LIMIT && (forall a :: a in r.answers ==> good(a.data))
  }

  lemma FollowPlain(cnames: seq<CnameRecord>, owners: seq<Name>, question: Name)
    requires PlainLinks(cnames) && Plain(question)
    ensures var r := Follow(cnames, owners, question, []); r.Reached? ==> PlainLinks(r.chain) && Plain(r.last)
  {
    hide Follow, Plain;
    FollowDrawn(cnames, owners, question, []);
  }

  lemma {:induction false} SelectedGood<T>(records: seq<Candidate<T>>, name: Name, ttl: u32, good: T -> bool)
    requires forall c :: c in records ==> good(c.data)
    ensures |Selected(records, name, ttl)| <= |records|
            && forall a :: a in Selected(records, name, ttl) ==> good(a.data)
  {
    hide Canon;
    if records != [] {
      var n := |records| - 1;
      assert forall c :: c in records[..n] ==> c in records;
      SelectedGood(records[..n], name, ttl, good);
      assert records[n] in records;
    }
  }

  lemma AnswerPlain<T>(reply: Reply<T>, r: Result<T>, good: T -> bool)
    requires reply.Answer? && PlainReply(reply, good) && r.question == reply.question && r.rcode == reply.rcode
    requires Follow(reply.cnames, Owners(reply.records), reply.question, []) == Reached(r.cnames, r.canonical)
    requires r.answers == Selected(reply.records, r.canonical, IpcAssembly.ChainTtl(r.cnames))
    requires r.negative == IpcAssembly.NO_NEGATIVE
             || r.negative == Lowered(Chosen(reply.authority, r.canonical), IpcAssembly.ChainTtl(r.cnames))
    ensures PlainResult(r, good)
  {
    hide Follow, Plain, Selected, Chosen, IpcAssembly.ChainTtl;
    FollowPlain(reply.cnames, Owners(reply.records), reply.question);
    SelectedGood(reply.records, r.canonical, IpcAssembly.ChainTtl(r.cnames), good);
    ChosenNamed(reply.authority, r.canonical);
  }

  // ---------------------------------------------------------------- one answer

  /** What a readable answer to the question comes to. */
  function Judged<T>(reply: Reply<T>, built: ParseStatus): (r: ParseStatus)
    requires reply.Answer?
  {
    var negative := if |reply.authority| > AUTHORITY_LIMIT then SoaLimit
                    else if Unreadable in reply.authority then SoaMalformed else SoaOk;
    if reply.rcode == NXDOMAIN then
      if built.ParseOk? then ParseMalformed
      else if built.AliasOnly? || built.NoData? then Denied(negative, NxDomain) else built
    else if built.NoData? then Denied(negative, NoData)
    else built
  }

  /** What an answer gives when memory suffices: how it is to be taken, and what it holds. */
  function Interpreted<T>(reply: Reply<T>, expected: Name): (r: (ParseStatus, Result<T>))
    requires reply.Answer?
    ensures r.0.AliasOnly? ==> r.1.cnames != []
  {
    if Canon(reply.question) != Canon(expected) then (ParseMalformed, Blank())
    else if reply.rcode != NOERROR && reply.rcode != NXDOMAIN then
      (RcodeError, Blank<T>().(question := reply.question, rcode := reply.rcode))
    else
      var (built, answers) := Built(reply.records, reply.cnames, reply.question);
      var status := Judged(reply, built);
      if !Settled(status) then (status, Blank())
      else
        var end := Follow(reply.cnames, Owners(reply.records), reply.question, []);
        var negative :=
          if status.NoData? || status.NxDomain?
          then Lowered(Chosen(reply.authority, end.last), IpcAssembly.ChainTtl(end.chain))
          else IpcAssembly.NO_NEGATIVE;
        (status, Result(reply.question, reply.rcode, end.chain, end.last, answers, negative))
  }

  /** Reads one answer. */
  method ResponseParse<T>(reply: Reply<T>, expected: Name, memory: nat -> bool, ghost good: T -> bool)
      returns (status: ParseStatus, r: Result<T>)
    requires reply.Answer?
    ensures Settled(status) ==>
            Simple(r) && r.question == reply.question && Canon(r.question) == Canon(expected) && r.rcode == reply.rcode
    ensures status.ParseOk? ==>
            r.answers != [] && Capped(r.answers, IpcAssembly.ChainTtl(r.cnames)) && r.rcode == NOERROR
    ensures status.AliasOnly? ==> r.cnames != [] && r.answers == [] && r.rcode == NOERROR
    ensures status.ParseOk? || status.AliasOnly? ==> r.negative == IpcAssembly.NO_NEGATIVE
    ensures status.NoData? || status.NxDomain? ==>
              r.answers == [] && r.negative
                == Lowered(Chosen(reply.authority, r.canonical), IpcAssembly.ChainTtl(r.cnames))
    ensures status.NoData? ==> r.rcode == NOERROR
    ensures status.NxDomain? <==> reply.rcode == NXDOMAIN && Settled(status)
    ensures status.RcodeError? <==>
            Canon(reply.question) == Canon(expected) && reply.rcode != NOERROR && reply.rcode != NXDOMAIN
    ensures status.RcodeError? ==> r == Blank<T>().(question := reply.question, rcode := reply.rcode)
    ensures !Settled(status) && !status.RcodeError? ==> r == Blank()
    ensures (forall k :: memory(k)) ==> (status, r) == Interpreted(reply, expected)
    ensures Canon(reply.question) == Canon(expected) && !status.RcodeError? && (forall k :: memory(k)) ==>
              status == Judged(reply, Built(reply.records, reply.cnames, reply.question).0)
    ensures PlainReply(reply, good) ==> PlainResult(r, good)
  {
    hide Canon, Follow, Selected, Canonical, Holds, Chosen, PlainReply, PlainResult, IpcAssembly.ChainTtl, Plain;
    PlainBlank<T>(reply, good);
    var same := NameEqual(reply.question, expected);
    if !same {
      return ParseMalformed, Blank();
    }
    if reply.rcode != NOERROR && reply.rcode != NXDOMAIN {
      return RcodeError, Blank<T>().(question := reply.question, rcode := reply.rcode);
    }
    var chain, canonical, answers;
    status, chain, canonical, answers := ChainBuild(reply.records, reply.cnames, reply.question, memory);
    SelectedHolds(reply.records, canonical, IpcAssembly.ChainTtl(chain));
    var negative := IpcAssembly.NO_NEGATIVE;
    if status.NoData? || (reply.rcode == NXDOMAIN && status.AliasOnly?) {
      var ttl := LeastTtl(chain);
      var verdict;
      verdict, negative := NegativeParse(reply.authority, canonical, ttl);
      status := Denied(verdict, if reply.rcode == NXDOMAIN then NxDomain else NoData);
    } else if reply.rcode == NXDOMAIN && status.ParseOk? {
      status := ParseMalformed;
    }
    if Settled(status) {
      r := Result(reply.question, reply.rcode, chain, canonical, answers, negative);
      if PlainReply(reply, good) {
        AnswerPlain(reply, r, good);
      }
    } else {
      r := Blank();
    }
  }

  lemma PlainBlank<T>(reply: Reply<T>, good: T -> bool)
    requires reply.Answer?
    ensures PlainResult(Blank<T>(), good)
    ensures PlainReply(reply, good) ==> PlainResult(Blank<T>().(question := reply.question, rcode := reply.rcode), good)
  {
    hide Plain;
  }

  /** The shortest life along a chain. */
  method LeastTtl(chain: seq<CnameRecord>) returns (ttl: u32)
    ensures ttl == IpcAssembly.ChainTtl(chain)
  {
    ttl := IpcAssembly.TTL_MAX;
    var k := 0;
    while k < |chain|
      invariant 0 <= k <= |chain| && ttl == IpcAssembly.ChainTtl(chain[..k])
    {
      assert chain[..k + 1][..k] == chain[..k];
      if chain[k].ttl < ttl {
        ttl := chain[k].ttl;
      }
      k := k + 1;
    }
    assert chain[..k] == chain;
  }

  // ---------------------------------------------------------------- joining chains

  ghost predicate Clash(front: seq<CnameRecord>, back: seq<CnameRecord>) {
    exists j :: 0 <= j < |back| && Revisits(front, back[j].target)
  }

  lemma JoinedPath(question: Name, front: seq<CnameRecord>, middle: Name, back: seq<CnameRecord>)
    requires DnsChain.Path(question, front)[|front|] == Canon(middle)
    ensures DnsChain.Path(question, front + back) == DnsChain.Path(question, front) + DnsChain.Path(middle, back)[1..]
  {
    hide Canon;
  }

  lemma JoinedDistinct(a: seq<Name>, b: seq<Name>)
    requires a != [] && b != [] && a[|a| - 1] == b[0] && Distinct(a) && Distinct(b)
    requires forall i, j :: 0 <= i < |a| - 1 && 1 <= j < |b| ==> a[i] != b[j]
    ensures Distinct(a + b[1..])
  {
    var nodes, k := a + b[1..], |a| - 1;
    forall i, j | 0 <= i < j < |nodes|
      ensures nodes[i] != nodes[j]
    {
      assert j > k ==> nodes[j] == b[j - k];
      assert i >= k ==> nodes[i] == b[i - k];
    }
  }

  lemma JoinedOwners(question: Name, front: seq<CnameRecord>, middle: Name, back: seq<CnameRecord>, canonical: Name)
    requires Canonical(question, front, middle) && Canonical(middle, back, canonical)
    ensures var nodes, links := DnsChain.Path(question, front + back), front + back;
            && nodes[|links|] == Canon(canonical)
               && (forall i :: 0 <= i < |links| ==> Canon(links[i].owner) == nodes[i])
  {
    hide Canon, DnsChain.Path, Distinct;
    JoinedPath(question, front, middle, back);
  }

  /** Two simple paths that meet make a simple path exactly when the second never returns to a name the
      first one left. */
  lemma JoinedSimple(question: Name, front: seq<CnameRecord>, middle: Name, back: seq<CnameRecord>, canonical: Name)
    requires |front| + |back| <= DEPTH && Canonical(question, front, middle) && Canonical(middle, back, canonical)
    ensures Canonical(question, front + back, canonical) <==> !Clash(front, back)
  {
    hide Canon, DnsChain.Path, Distinct;
    JoinedPath(question, front, middle, back);
    JoinedOwners(question, front, middle, back, canonical);
    var a, b := DnsChain.Path(question, front), DnsChain.Path(middle, back);
    if Canonical(question, front + back, canonical) {
      JoinedApart(front, back, a + b[1..]);
    }
    if !Clash(front, back) {
      forall i, j | 0 <= i < |a| - 1 && 1 <= j < |b|
        ensures a[i] != b[j]
      {
        assert !Revisits(front, back[j - 1].target);
        assert a[i] == Canon(front[i].owner);
      }
      JoinedDistinct(a, b);
    }
  }

  lemma JoinedApart(front: seq<CnameRecord>, back: seq<CnameRecord>, nodes: seq<Name>)
    requires |nodes| == |front| + |back| + 1 && Distinct(nodes)
    requires forall i :: 0 <= i < |front| ==> Canon(front[i].owner) == nodes[i]
    requires forall j :: 0 <= j < |back| ==> Canon(back[j].target) == nodes[|front| + j + 1]
    ensures !Clash(front, back)
  {
    hide Canon;
    forall j | 0 <= j < |back|
      ensures !Revisits(front, back[j].target)
    {
      assert forall i :: 0 <= i < |front| ==> nodes[i] != nodes[|front| + j + 1];
    }
  }

  lemma RevisitsSplit(front: seq<CnameRecord>, back: seq<CnameRecord>, target: Name)
    ensures Revisits(front + back, target) <==> Revisits(front, target) || Revisits(back, target)
  {
    hide Canon;
    var both := front + back;
    if Revisits(front, target) {
      var i :| 0 <= i < |front| && Canon(front[i].owner) == Canon(target);
      assert both[i] == front[i];
    }
    if Revisits(back, target) {
      var i :| 0 <= i < |back| && Canon(back[i].owner) == Canon(target);
      assert both[|front| + i] == back[i];
    }
  }

  lemma OwnPathNew(question: Name, back: seq<CnameRecord>, canonical: Name, j: nat)
    requires Canonical(question, back, canonical) && j < |back|
    ensures !Revisits(back[..j], back[j].target)
  {
    hide Canon, DnsChain.Path;
    var nodes := DnsChain.Path(question, back);
    assert forall i :: 0 <= i < j ==> Canon(back[i].owner) == nodes[i] && nodes[i] != nodes[j + 1];
  }

  lemma NoClashSoFar(front: seq<CnameRecord>, back: seq<CnameRecord>, j: nat)
    requires j < |back| && !Clash(front, back[..j]) && !Revisits(front, back[j].target)
    ensures !Clash(front, back[..j + 1])
  {
    hide Revisits;
    var shorter, longer := back[..j], back[..j + 1];
    forall k | 0 <= k < |longer|
      ensures !Revisits(front, longer[k].target)
    {
      assert k < j ==> longer[k] == shorter[k];
    }
  }

  /** What a growing result may look like: nothing yet, or a simple path. */
  ghost predicate Growing<T>(target: Result<T>, ttl: u32) {
    && (if target.question == [] then target.cnames == [] else Simple(target))
    && ttl == IpcAssembly.ChainTtl(target.cnames) && target.answers == [] && target.negative == IpcAssembly.NO_NEGATIVE
  }

  lemma SameMiddle(question: Name, same: Name, chain: seq<CnameRecord>, canonical: Name)
    requires Canonical(question, chain, canonical) && Canon(question) == Canon(same)
    ensures Canonical(same, chain, canonical)
  {
    hide Canon;
    assert DnsChain.Path(question, chain) == DnsChain.Path(same, chain);
  }

  lemma LinkAppended(front: seq<CnameRecord>, back: seq<CnameRecord>, j: nat)
    requires j < |back|
    ensures front + back[..j + 1] == front + back[..j] + [back[j]]
    ensures var soFar := IpcAssembly.ChainTtl(front + back[..j]);
            IpcAssembly.ChainTtl(front + back[..j + 1]) == if back[j].ttl < soFar then back[j].ttl else soFar
  {
    var links := front + back[..j];
    assert front + back[..j + 1] == links + [back[j]];
    assert (links + [back[j]])[..|links|] == links;
  }

  /** Appends one link after the other, until one would lead back to a name of the first chain. */
  method LinksAppend(front: seq<CnameRecord>, back: seq<CnameRecord>, ttl: u32, ghost question: Name,
      ghost canonical: Name) returns (clash: bool, links: seq<CnameRecord>, newTtl: u32)
    requires Canonical(question, back, canonical) && ttl == IpcAssembly.ChainTtl(front)
    ensures clash <==> Clash(front, back)
    ensures !clash ==> links == front + back && newTtl == IpcAssembly.ChainTtl(links)
  {
    hide Canonical, Revisits, IpcAssembly.ChainTtl;
    links, newTtl := front, ttl;
    var j := 0;
    while j < |back|
      invariant 0 <= j <= |back| && links == front + back[..j]
      invariant !Clash(front, back[..j]) && newTtl == IpcAssembly.ChainTtl(links)
    {
      var link := back[j];
      var visited := FindVisited(links, link.target);
      RevisitsSplit(front, back[..j], link.target);
      OwnPathNew(question, back, canonical, j);
      if visited {
        return true, links, newTtl;
      }
      NoClashSoFar(front, back, j);
      LinkAppended(front, back, j);
      links := links + [link];
      newTtl := if link.ttl < newTtl then link.ttl else newTtl;
      j := j + 1;
    }
    assert back[..j] == back;
    clash := false;
  }

  /** Appends the chain of one response to the chain so far. It fails exactly when the responses do not fit
      together, the joint chain is too long, or it would visit a name twice. */
  method ChainAppend<T>(target: Result<T>, source: Result<T>, ttl: u32, memory: bool)
      returns (status: LookupStatus, joined: Result<T>, newTtl: u32)
    requires Growing(target, ttl) && Simple(source) && (target.question == [] ==> source.question != [])
    ensures status.Found? || status.LookupMalformed? || status.LookupLimit? || status.LookupMemory?
    ensures status.Found? ==>
              && Growing(joined, newTtl) && Simple(joined) && joined.canonical == source.canonical
                 && joined.rcode == source.rcode
              && joined.cnames == target.cnames + source.cnames && joined.negative == target.negative
              && joined.question == (if target.question == [] then source.question else target.question)
    ensures memory ==>
              && !status.LookupMemory?
              && (status.LookupLimit? <==> Meets(target, source) && |target.cnames| + |source.cnames| > DEPTH)
              && (status.LookupMalformed? <==>
                 !Meets(target, source)
                   || (|target.cnames| + |source.cnames| <= DEPTH && Clash(target.cnames, source.cnames)))
  {
    hide Canon, Canonical, Clash;
    joined, newTtl := target, ttl;
    if target.question == [] {
      joined := joined.(question := source.question, canonical := source.question);
      StartSimple(source.question);
    } else {
      var meets := NameEqual(target.canonical, source.question);
      if !meets {
        return LookupMalformed, joined, newTtl;
      }
    }
    if |source.cnames| > DEPTH - |target.cnames| {
      SimpleShort(joined);
      return LookupLimit, joined, newTtl;
    }
    if source.cnames != [] && target.cnames == [] && !memory {
      return LookupMemory, joined, newTtl;
    }
    ghost var middle := joined.canonical;
    assert Canonical(joined.question, target.cnames, middle);
    SameMiddle(source.question, middle, source.cnames, source.canonical);
    var clash, links;
    clash, links, newTtl := LinksAppend(target.cnames, source.cnames, ttl, source.question, source.canonical);
    if clash {
      return LookupMalformed, joined, newTtl;
    }
    JoinedSimple(joined.question, target.cnames, middle, source.cnames, source.canonical);
    joined := joined.(cnames := links, canonical := source.canonical, rcode := source.rcode);
    status := Found;
  }

  ghost predicate Meets<T>(target: Result<T>, source: Result<T>) {
    target.question == [] || Canon(target.canonical) == Canon(source.question)
  }

  lemma StartSimple(question: Name)
    ensures Canonical(question, [], question)
  {
    hide Canon;
  }

  lemma SimpleShort(r: Result)
    requires Simple(r) || r.cnames == []
    ensures |r.cnames| <= DEPTH
  {
    hide Canon;
  }

  // ---------------------------------------------------------------- the lookup

  function ParseMeaning(status: ParseStatus, rcode: nat): (r: LookupStatus) {
    match status
    case ParseOk => Found
    case AliasOnly => Found
    case NoData => Empty
    case NxDomain => NotFound
    case RcodeError => if rcode == SERVFAIL then Temporary else Permanent
    case ParseLimit => LookupLimit
    case ParseMalformed => LookupMalformed
    case ParseMemory => LookupMemory
  }

  predicate Keeps(status: LookupStatus) {
    status.Found? || status.Empty? || status.NotFound? || status.Permanent? || status.Temporary?
  }

  /** No answer outlives the chain that leads to it. */
  method LowerAnswers<T>(answers: seq<Answered<T>>, ttl: u32, chain: seq<CnameRecord>, last: seq<CnameRecord>)
      returns (r: seq<Answered<T>>)
    requires Capped(answers, IpcAssembly.ChainTtl(last))
             && ttl == IpcAssembly.ChainTtl(chain) <= IpcAssembly.ChainTtl(last)
    ensures |r| == |answers| && Capped(r, ttl)
    ensures forall i :: 0 <= i < |r| ==> r[i].data == answers[i].data && r[i].recordTtl == answers[i].recordTtl
    ensures r == Recapped(answers, ttl)
  {
    hide IpcAssembly.ChainTtl;
    r := [];
    var k := 0;
    while k < |answers|
      invariant 0 <= k <= |answers| && |r| == k && Capped(r, ttl)
      invariant forall i :: 0 <= i < k ==> r[i].data == answers[i].data && r[i].recordTtl == answers[i].recordTtl
    {
      var a := answers[k];
      assert a in answers;
      r := r + [if ttl < a.effectiveTtl then a.(effectiveTtl := ttl) else a];
      k := k + 1;
    }
  }

  lemma {:induction false} LongerLivesLess(front: seq<CnameRecord>, back: seq<CnameRecord>)
    ensures IpcAssembly.ChainTtl(front + back) <= IpcAssembly.ChainTtl(back)
    ensures IpcAssembly.ChainTtl(front + back) <= IpcAssembly.ChainTtl(front)
    decreases back
  {
    if back == [] {
      assert front + back == front;
      AnyTtl(front);
    } else {
      var n := |back| - 1;
      LongerLivesLess(front, back[..n]);
      assert (front + back)[..|front| + n] == front + back[..n];
    }
  }

  lemma AnyTtl(chain: seq<CnameRecord>)
    ensures IpcAssembly.ChainTtl(chain) <= IpcAssembly.TTL_MAX
  {
  }

  function FailureMeaning(failure: Failure): (r: LookupStatus) {
    match failure
    case NoMemory => LookupMemory
    case BadPacket => LookupMalformed
    case PermanentFailure => Permanent
    case TemporaryFailure => Temporary
    case TruncatedAnswer => Truncated
    case TooManyAnswers => LookupLimit
  }

  /** What a lookup that found out promises: a simple path from the name that was asked, and at its end answers that
      do not outlive it, or the proof that there is none, which lives exactly as long as its zone and the path allow. */
  ghost predicate Concluded<T>(hostname: Name, status: LookupStatus, r: Result<T>) {
    status.Found? || status.Empty? || status.NotFound? ==>
      && Simple(r) && Canon(r.question) == Canon(hostname) && r.question != []
      && r.rcode == (if status.NotFound? then NXDOMAIN else NOERROR)
      && (if status.Found?
            then r.answers != [] && Capped(r.answers, IpcAssembly.ChainTtl(r.cnames))
              && r.negative == IpcAssembly.NO_NEGATIVE
          else r.answers == [] && Vouched(r.negative, r.canonical, IpcAssembly.ChainTtl(r.cnames)))
  }

  /** What a lookup that failed at a server leaves: the path so far and the server's code. */
  ghost predicate Stuck<T>(hostname: Name, status: LookupStatus, r: Result<T>) {
    status.Permanent? || status.Temporary? ==>
      && r.answers == [] && r.negative == IpcAssembly.NO_NEGATIVE
      && (if r.question == [] then r == Blank()
          else Canon(r.question) == Canon(hostname) && (if r.cnames == [] then r.canonical == [] else Simple(r)))
      && (status.Temporary? ==> r.rcode == NOERROR || r.rcode == SERVFAIL)
      && (status.Permanent? ==> r.rcode != NXDOMAIN && r.rcode != SERVFAIL)
  }

  // ---------------------------------------------------------------- the course of a lookup

  /** One response after what came before: nothing if the two do not make a simple path of bearable length. */
  ghost function Appended<T>(target: Result<T>, source: Result<T>): (r: (LookupStatus, Result<T>))
    ensures r.0.Found? ==> r.1.cnames == target.cnames + source.cnames && |r.1.cnames| <= DEPTH
  {
    if !Meets(target, source) then (LookupMalformed, target)
    else if |target.cnames| + |source.cnames| > DEPTH then (LookupLimit, target)
    else if Clash(target.cnames, source.cnames) then (LookupMalformed, target)
    else (Found, Result(if target.question == [] then source.question else target.question, source.rcode,
                        target.cnames + source.cnames, source.canonical, [], IpcAssembly.NO_NEGATIVE))
  }

  function Recapped<T>(answers: seq<Answered<T>>, ttl: u32): (r: seq<Answered<T>>)
    ensures |r| == |answers|
  {
    seq(|answers|, i requires 0 <= i < |answers| =>
      answers[i].(effectiveTtl := IpcAssembly.Lesser(answers[i].recordTtl, ttl)))
  }

  /** The end of a lookup: the last response's answers or denial, living no longer than the whole path. */
  function Ended<T>(parse: ParseStatus, joined: Result<T>, partial: Result<T>): (r: Result<T>) {
    var ttl := IpcAssembly.ChainTtl(joined.cnames);
    if parse.ParseOk? then joined.(answers := Recapped(partial.answers, ttl))
    else joined.(negative := Lowered(partial.negative, ttl))
  }

  /** What one more reply makes of a lookup, and whether its alias has to be asked for next. */
  ghost function Next<T>(reply: Reply<T>, name: Name, r: Result<T>): (s: (LookupStatus, Result<T>, bool))
    ensures s.2 ==> |r.cnames| < |s.1.cnames| <= DEPTH
  {
    if reply.Failed? then (FailureMeaning(reply.failure), r, false)
    else
      var (parse, partial) := Interpreted(reply, name);
      var status := ParseMeaning(parse, partial.rcode);
      if parse.RcodeError? then (status, if r.question == [] then partial else r.(rcode := partial.rcode), false)
      else if !Settled(parse) then (status, r, false)
      else
        var (outcome, joined) := Appended(r, partial);
        if !outcome.Found? then (outcome, r, false)
        else if parse.AliasOnly? then (status, joined, true)
        else (status, Ended(parse, joined, partial), false)
  }

  /** Where a lookup leads from its n-th query on, given what was found before. */
  ghost function Course<T>(replies: (nat, Name) -> Reply<T>, n: nat, name: Name, r: Result<T>)
      : (c: (LookupStatus, Result<T>))
    requires |r.cnames| <= DEPTH
    decreases DEPTH - |r.cnames|
  {
    var (status, found, more) := Next(replies(n, name), name, r);
    if more then Course(replies, n + 1, found.canonical, found) else (status, found)
  }

  /** What a lookup comes to when memory suffices. */
  ghost function Resolved<T>(hostname: Name, replies: (nat, Name) -> Reply<T>): (c: (LookupStatus, Result<T>)) {
    if hostname == [] || |hostname| >= TEXT_LIMIT then (BadLookup, Blank())
    else
      var c := Course(replies, 0, hostname, Blank());
      (c.0, if Keeps(c.0) then c.1 else Blank())
  }

  lemma BlankGrows<T>()
    ensures Growing(Blank<T>(), IpcAssembly.TTL_MAX)
  {
  }

  lemma CanonEmpty(a: Name, b: Name)
    requires Canon(a) == Canon(b) && b != []
    ensures a != []
  {
    assert |Canon(b)| > 0;
  }

  /** The last response of a lookup, joined to what came before. */
  method Conclude<T>(hostname: Name, parse: ParseStatus, joined: Result<T>, ttl: u32, partial: Result<T>,
      ghost good: T -> bool) returns (r: Result<T>)
    requires Growing(joined, ttl) && Simple(joined) && Canon(joined.question) == Canon(hostname)
             && joined.question != []
    requires ttl <= IpcAssembly.ChainTtl(partial.cnames) && joined.rcode == partial.rcode
             && joined.canonical == partial.canonical
    requires parse.ParseOk? ==> partial.answers != [] && Capped(partial.answers, IpcAssembly.ChainTtl(partial.cnames))
    requires parse.NoData? || parse.NxDomain? ==>
             Vouched(partial.negative, partial.canonical, IpcAssembly.ChainTtl(partial.cnames))
    requires parse.ParseOk? || parse.NoData? || parse.NxDomain?
    requires partial.rcode == if parse.NxDomain? then NXDOMAIN else NOERROR
    ensures Concluded(hostname, ParseMeaning(parse, partial.rcode), r) && r == Ended(parse, joined, partial)
    ensures PlainResult(joined, good) && PlainResult(partial, good) ==> PlainResult(r, good)
  {
    hide Canon, Canonical, IpcAssembly.ChainTtl, Plain, PlainLinks, Vouched;
    if parse.ParseOk? {
      var lowered := LowerAnswers(partial.answers, ttl, joined.cnames, partial.cnames);
      r := joined.(answers := lowered);
      if PlainResult(joined, good) && PlainResult(partial, good) {
        forall a | a in lowered
          ensures good(a.data)
        {
          var i :| 0 <= i < |lowered| && lowered[i] == a;
          assert partial.answers[i] in partial.answers;
        }
      }
    } else {
      VouchedLonger(partial.negative, partial.canonical, IpcAssembly.ChainTtl(partial.cnames), ttl);
      r := joined.(negative := Lowered(partial.negative, ttl));
    }
  }

  lemma PlainJoined<T>(r: Result<T>, partial: Result<T>, joined: Result<T>, good: T -> bool)
    requires PlainResult(r, good) && PlainResult(partial, good)
    requires joined.cnames == r.cnames + partial.cnames && joined.canonical == partial.canonical
             && joined.rcode == partial.rcode
    requires joined.question == (if r.question == [] then partial.question else r.question) && joined.answers == []
             && !joined.negative.valid
    ensures PlainResult(joined, good)
  {
    hide Plain;
    assert forall c :: c in joined.cnames ==> c in r.cnames || c in partial.cnames;
  }

  /** Every reply to a query has its names in normal form. */
  ghost predicate PlainServers<T(!new)>(replies: (nat, Name) -> Reply<T>, good: T -> bool) {
    forall n, name :: PlainReply(replies(n, name), good)
  }

  /** A server's refusal ends a lookup; what was found before is kept. */
  method Rejected<T>(hostname: Name, status: LookupStatus, r: Result<T>, ttl: u32, partial: Result<T>,
      ghost good: T -> bool) returns (kept: Result<T>)
    requires Growing(r, ttl) && r.rcode == NOERROR && (r.question == [] ==> r == Blank())
             && (r.question != [] ==> Canon(r.question) == Canon(hostname) && r.cnames != [])
    requires partial == Blank<T>().(question := partial.question, rcode := partial.rcode) && partial.rcode != NOERROR
             && partial.rcode != NXDOMAIN
    requires r.question == [] ==> partial.question != [] && Canon(partial.question) == Canon(hostname)
    requires status == if partial.rcode == SERVFAIL then Temporary else Permanent
    ensures Concluded(hostname, status, kept) && Stuck(hostname, status, kept)
    ensures kept == if r.question == [] then partial else r.(rcode := partial.rcode)
    ensures PlainResult(r, good) && PlainResult(partial, good) ==> PlainResult(kept, good)
  {
    hide Canon, Canonical, IpcAssembly.ChainTtl, Plain;
    kept := if r.question == [] then partial else r.(rcode := partial.rcode);
  }

  lemma PlainBlankOnly<T>(good: T -> bool)
    ensures PlainResult(Blank<T>(), good)
  {
  }

  lemma Unfinished<T>(hostname: Name, status: LookupStatus, r: Result<T>)
    requires !status.Found? && !status.Empty? && !status.NotFound?
    ensures Concluded(hostname, status, r)
  {
  }

  lemma NotStuck<T>(hostname: Name, status: LookupStatus, r: Result<T>)
    requires !status.Permanent? && !status.Temporary?
    ensures Stuck(hostname, status, r)
  {
  }

  lemma StuckHere<T>(hostname: Name, status: LookupStatus, r: Result<T>, ttl: u32)
    requires Growing(r, ttl) && r.rcode == NOERROR && (r.question == [] ==> r == Blank())
             && (r.question != [] ==> Canon(r.question) == Canon(hostname) && r.cnames != [])
    ensures Stuck(hostname, status, r)
  {
    hide Canon, Canonical, IpcAssembly.ChainTtl;
  }

  /** How far a lookup has come when it asks for a name: nothing is found yet, or a path of aliases that ends there. */
  ghost predicate Underway<T>(hostname: Name, name: Name, r: Result<T>, ttl: u32) {
    && Growing(r, ttl) && r.rcode == NOERROR && |r.cnames| <= DEPTH && hostname != []
    && (if r.question == [] then r == Blank() && name == hostname
        else name == r.canonical && Canon(r.question) == Canon(hostname) && r.cnames != [])
  }

  /** One query and its reply. */
  method QueryStep<T>(hostname: Name, reply: Reply<T>, name: Name, r: Result<T>, ttl: u32, memory: nat -> bool,
      ghost good: T -> bool) returns (status: LookupStatus, found: Result<T>, newTtl: u32, more: bool)
    requires Underway(hostname, name, r, ttl)
    ensures more ==> Underway(hostname, found.canonical, found, newTtl) && |r.cnames| < |found.cnames|
    ensures !more ==> Concluded(hostname, status, found) && Stuck(hostname, status, found) && !status.BadLookup?
    ensures PlainReply(reply, good) && PlainResult(r, good) ==> PlainResult(found, good)
    ensures (forall k :: memory(k)) ==> (status, found, more) == Next(reply, name, r)
  {
    hide Canon, Canonical, Follow, IpcAssembly.ChainTtl, Concluded, Stuck, Plain, PlainResult, PlainReply, Vouched,
         Chosen, Interpreted, Ended, Clash, Judged, Built;
    found, newTtl, more := r, ttl, false;
    if reply.Failed? {
      status := FailureMeaning(reply.failure);
      Unfinished(hostname, status, r);
      StuckHere(hostname, status, r, ttl);
      return;
    }
    var parse, partial := ResponseParse(reply, name, memory, good);
    status := ParseMeaning(parse, partial.rcode);
    if r.question == [] && (parse.RcodeError? || Settled(parse)) {
      CanonEmpty(partial.question, name);
    }
    if parse.RcodeError? {
      found := Rejected(hostname, status, r, ttl, partial, good);
      return;
    }
    if !Settled(parse) {
      Unfinished(hostname, status, r);
      NotStuck(hostname, status, r);
      return;
    }
    var outcome, joined, joinedTtl := ChainAppend(r, partial, ttl, memory(2));
    if !outcome.Found? {
      status := outcome;
      Unfinished(hostname, status, r);
      NotStuck(hostname, status, r);
      return;
    }
    if PlainReply(reply, good) && PlainResult(r, good) {
      PlainJoined(r, partial, joined, good);
    }
    if parse.AliasOnly? {
      SimpleShort(joined);
      found, newTtl, more := joined, joinedTtl, true;
    } else {
      LongerLivesLess(r.cnames, partial.cnames);
      ChosenVouched(reply.authority, partial.canonical, IpcAssembly.ChainTtl(partial.cnames));
      found := Conclude(hostname, parse, joined, joinedTtl, partial, good);
      NotStuck(hostname, status, found);
    }
  }

  /** Looks a name up. `replies` answers the n-th query, for the name it asks. However the servers answer, no
      more than seventeen queries are sent. */
  method Lookup<T(!new)>(hostname: Name, replies: (nat, Name) -> Reply<T>, memory: nat -> bool, ghost good: T -> bool)
    returns (status: LookupStatus, r: Result<T>, queries: nat)
    ensures queries <= DEPTH + 1
    ensures status.BadLookup? <==> hostname == [] || |hostname| >= TEXT_LIMIT
    ensures Concluded(hostname, status, r) && Stuck(hostname, status, r) && (!Keeps(status) ==> r == Blank())
    ensures PlainServers(replies, good) ==> PlainResult(r, good)
    ensures (forall k :: memory(k)) ==> (status, r) == Resolved(hostname, replies)
  {
    hide Canon, Canonical, IpcAssembly.ChainTtl, Concluded, Stuck, Plain, PlainResult, PlainReply, Next, Growing;
    r, queries := Blank(), 0;
    status := BadLookup;
    PlainBlankOnly<T>(good);
    if hostname == [] || |hostname| >= TEXT_LIMIT {
      Unfinished(hostname, status, r);
      NotStuck(hostname, status, r);
      return;
    }
    var name, ttl, more := hostname, IpcAssembly.TTL_MAX, true;
    BlankGrows<T>();
    while more
      invariant |r.cnames| <= DEPTH || !more
      invariant more ==> Underway(hostname, name, r, ttl) && queries <= |r.cnames|
      invariant !more ==> Concluded(hostname, status, r) && Stuck(hostname, status, r) && !status.BadLookup?
      invariant more && (forall k :: memory(k)) ==>
                  Course(replies, 0, hostname, Blank()) == Course(replies, queries, name, r)
      invariant !more && (forall k :: memory(k)) ==> (status, r) == Course(replies, 0, hostname, Blank())
      invariant queries <= DEPTH + 1 && (PlainServers(replies, good) ==> PlainResult(r, good))
      decreases more, DEPTH + 1 - |r.cnames|
    {
      var reply := replies(queries, name);
      assert PlainServers(replies, good) ==> PlainReply(reply, good);
      status, r, ttl, more := QueryStep(hostname, reply, name, r, ttl, memory, good);
      queries := queries + 1;
      name := r.canonical;
    }
    if !Keeps(status) {
      r := Blank();
      Unfinished(hostname, status, r);
      NotStuck(hostname, status, r);
    }
  }
}
