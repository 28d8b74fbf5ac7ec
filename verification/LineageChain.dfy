/** Walking the provenance chain of an artifact to its root, and what a complete chain says of every member. */
module LineageChain {
  import opened Common
  import opened Json
  import opened HashVersions
  import opened Migration
  import opened Identity
  import opened Resolver
  import opened Lineage

  /** Where a parent is looked up: a resolver asked first, and the store of a workspace. */
  datatype ParentLookup = ParentLookup(resolver: Option<string -> Value>, store: Option<seq<Entry>>)

  datatype Parent =
    | Root
    | Found(id: string, artifact: Value)
    | Missing(id: string)
    | Invalid(id: string)
    | Unresolved(id: string)

  /** The parent an artifact references: its lineage block's when it has the member, else a top-level 64-hex one. */
  function ParentReferenceOf(a: Value): (r: Option<string>)
    ensures r.Some? ==> r.value != []
  {
    var l := LineageOf(a);
    if l.Obj? && Lookup(l.fields, "parentArtifactId").Some? then
      var id := ParentId(l);
      if id.Str? && id.s != [] && id != Own(l) then Some(id.s) else None
    else
      var legacy := Member(a, "parentArtifactId");
      if legacy.Str? && Hex64(legacy.s) then Some(legacy.s) else None
  }

  function FromStore(id: string, entries: seq<Entry>, pf: Platform): (r: Parent)
    ensures r.Found? ==> r.id == id && CheckArtifactIdentity(r.artifact, pf) == Some(id)
    ensures !r.Root?
  {
    var answer := Answer(entries, ById(id, pf), pf);
    ByIdExact(entries, id, pf, answer);
    match answer
    case Ok(x) => Found(id, x.artifact)
    case Err(e) => if e == ArtifactNotFound then Missing(id) else Invalid(id)
  }

  /** resolveParentReference: a found parent always verifies as the identity that was referenced. */
  function ResolveParent(a: Value, lookup: ParentLookup, pf: Platform): (r: Parent)
    ensures r.Root? <==> ParentReferenceOf(a).None?
    ensures r.Found? ==>
              ParentReferenceOf(a) == Some(r.id) && Hex64(r.id) && CheckArtifactIdentity(r.artifact, pf) == Some(r.id)
  {
    match ParentReferenceOf(a)
    case None => Root
    case Some(id) =>
      var asked := if lookup.resolver.Some? then lookup.resolver.value(id) else Undefined;
      if !Hex64(id) then Invalid(id)
      else if Truthy(asked) then
        (if CheckArtifactIdentity(asked, pf) == Some(id) then Found(id, asked) else Invalid(id))
      else if lookup.store.None? then (if lookup.resolver.Some? then Missing(id) else Unresolved(id))
      else FromStore(id, lookup.store.value, pf)
  }

  // ----- chains

  /** The name a chain gives its first member: the identity it verifies as, or the hash it claims. */
  function FirstName(a: Value, pf: Platform): (r: Option<string>)
  {
    match CheckArtifactIdentity(a, pf)
    case Some(id) => Some(id)
    case None => if Member(a, "contentHash").Str? then Some(Member(a, "contentHash").s) else None
  }

  /** The name of the k-th member: the reference it was found by. */
  function NameAt(chain: seq<Value>, k: nat, pf: Platform): (r: Option<string>)
    requires k < |chain|
  {
    if k == 0 then FirstName(chain[0], pf) else ParentReferenceOf(chain[k - 1])
  }

  /** The (k+1)-th member is what looking up the parent of the k-th finds. */
  predicate Follows(chain: seq<Value>, k: nat, lookup: ParentLookup, pf: Platform)
    requires k + 1 < |chain|
  {
    var p := ResolveParent(chain[k], lookup, pf);
    p.Found? && p.artifact == chain[k + 1]
  }

  ghost predicate Ancestry(chain: seq<Value>, lookup: ParentLookup, pf: Platform)
  {
    chain != [] && forall k: nat :: k + 1 < |chain| ==> Follows(chain, k, lookup, pf)
  }

  ghost predicate NamesDistinct(chain: seq<Value>, pf: Platform)
  {
    forall i, j :: 0 <= i < j < |chain| ==> NameAt(chain, i, pf) != NameAt(chain, j, pf)
  }

  predicate HoldsAt(chain: seq<Value>, k: nat, ar: Arithmetic)
    requires k + 1 < |chain|
  {
    LinkHolds(chain[k], chain[k + 1], true, ar)
  }

  ghost predicate AllHold(chain: seq<Value>, ar: Arithmetic)
  {
    forall k: nat :: k + 1 < |chain| ==> HoldsAt(chain, k, ar)
  }

  predicate NonEmptyText(v: Value)
  {
    v.Str? && v.s != []
  }

  /** The root reached goes by the name the first member declares for its root, if it declares one. */
  predicate RootDeclared(chain: seq<Value>, pf: Platform)
    requires chain != []
  {
    var declared := RootId(LineageOf(chain[0]));
    var n := |chain| - 1;
    var last := LineageOf(chain[n]);
    n > 0 && NonEmptyText(declared) ==>
      NameAt(chain, n, pf) == Some(declared.s) || Own(last) == declared || RootId(last) == declared
  }

  /**
   * A chain of provenance: every ancestor found up to a root, none twice, every link holding, the declared root
   * reached.
   */
  ghost predicate Complete(chain: seq<Value>, lookup: ParentLookup, pf: Platform, ar: Arithmetic)
  {
    && Ancestry(chain, lookup, pf)
    && ResolveParent(chain[|chain| - 1], lookup, pf).Root?
    && NamesDistinct(chain, pf)
    && AllHold(chain, ar)
    && RootDeclared(chain, pf)
  }

  // ----- the walk

  datatype LinkStatus = Here | Ancestor | NotFound

  datatype Link = Link(name: Option<string>, status: LinkStatus)

  datatype ChainIssue = Broken(issue: Issue) | DepthExceeded | CycleDetected | RootMismatch

  ghost predicate Candidate(c: seq<Value>, artifact: Value, lookup: ParentLookup, maxHops: nat, pf: Platform,
                            ar: Arithmetic)
  {
    Complete(c, lookup, pf, ar) && c[0] == artifact && |c| <= maxHops + 1
  }

  lemma AncestryGrows(chain: seq<Value>, lookup: ParentLookup, pf: Platform, p: Value)
    requires Ancestry(chain, lookup, pf)
    requires var found := ResolveParent(chain[|chain| - 1], lookup, pf); found.Found? && found.artifact == p
    ensures Ancestry(chain + [p], lookup, pf)
  {
    hide ResolveParent, CheckArtifactIdentity, ParentReferenceOf, ContentHash, Hex64, DeclaredVersion, Member;
    forall k: nat | k + 1 < |chain + [p]| ensures Follows(chain + [p], k, lookup, pf) {
      if k + 1 < |chain| { assert Follows(chain, k, lookup, pf); }
    }
  }

  /** A complete chain from the same artifact goes on exactly where the walk does. */
  lemma NextOfCandidate(c: seq<Value>, chain: seq<Value>, artifact: Value, lookup: ParentLookup, maxHops: nat,
                        pf: Platform, ar: Arithmetic)
    requires Candidate(c, artifact, lookup, maxHops, pf, ar) && chain != [] && chain <= c
    ensures var p := ResolveParent(chain[|chain| - 1], lookup, pf);
            if p.Root? then chain == c else p.Found? && |chain| < |c| && chain + [p.artifact] <= c
  {
    hide ResolveParent, NamesDistinct, AllHold, RootDeclared, ParentReferenceOf, CheckArtifactIdentity, ContentHash,
         Hex64, Ancestry;
    var n := |chain|;
    if n < |c| {
      AncestryAt(c, lookup, pf, n - 1);
      assert c[..n + 1] == chain + [c[n]];
    } else {
      assert chain == c;
    }
  }

  lemma AncestryAt(c: seq<Value>, lookup: ParentLookup, pf: Platform, k: nat)
    requires Ancestry(c, lookup, pf) && k + 1 < |c|
    ensures var p := ResolveParent(c[k], lookup, pf); p.Found? && p.artifact == c[k + 1]
  {
    hide ResolveParent;
    assert Follows(c, k, lookup, pf);
  }

  lemma NamesGrow(chain: seq<Value>, p: Value, pf: Platform, names: set<string>)
    requires chain != [] && NamesDistinct(chain, pf) && ParentReferenceOf(chain[|chain| - 1]).Some?
    requires Visited(names, chain, pf) && ParentReferenceOf(chain[|chain| - 1]).value !in names
    ensures NamesDistinct(chain + [p], pf)
  {
    hide ParentReferenceOf, FirstName;
    var more := chain + [p];
    assert forall k :: 0 <= k < |chain| ==> NameAt(more, k, pf) == NameAt(chain, k, pf);
    assert NameAt(more, |chain|, pf) == ParentReferenceOf(chain[|chain| - 1]);
  }

  lemma HoldsGrow(chain: seq<Value>, p: Value, ar: Arithmetic)
    requires chain != []
    ensures AllHold(chain + [p], ar) <==> AllHold(chain, ar) && LinkHolds(chain[|chain| - 1], p, true, ar)
  {
    hide LinkHolds;
    var more := chain + [p];
    if AllHold(more, ar) {
      forall k: nat | k + 1 < |chain| ensures HoldsAt(chain, k, ar) { assert HoldsAt(more, k, ar); }
      assert HoldsAt(more, |chain| - 1, ar);
    }
    if AllHold(chain, ar) && LinkHolds(chain[|chain| - 1], p, true, ar) {
      forall k: nat | k + 1 < |more| ensures HoldsAt(more, k, ar) {
        if k + 1 < |chain| { assert HoldsAt(chain, k, ar); }
      }
    }
  }

  /** The error issues of a link. */
  function Errors(issues: seq<Issue>): (r: seq<ChainIssue>)
    ensures r == [] <==> NoErrors(issues)
  {
    if issues == [] then []
    else
      assert issues == [issues[0]] + issues[1..];
      (if issues[0].severity == Error then [Broken(issues[0])] else []) + Errors(issues[1..])
  }

  /** The names already met, and one position of each in the chain. */
  ghost predicate Visited(names: set<string>, chain: seq<Value>, pf: Platform)
  {
    && (forall k :: 0 <= k < |chain| && NameAt(chain, k, pf).Some? && NameAt(chain, k, pf).value != [] ==>
          NameAt(chain, k, pf).value in names)
    && (forall id :: id in names ==> exists k :: 0 <= k < |chain| && NameAt(chain, k, pf) == Some(id))
  }

  lemma VisitedGrows(names: set<string>, chain: seq<Value>, p: Value, pf: Platform, id: string)
    requires chain != [] && Visited(names, chain, pf) && ParentReferenceOf(chain[|chain| - 1]) == Some(id)
    ensures Visited(names + {id}, chain + [p], pf)
  {
    hide ParentReferenceOf, FirstName;
    var more := chain + [p];
    assert forall k :: 0 <= k < |chain| ==> NameAt(more, k, pf) == NameAt(chain, k, pf);
    assert NameAt(more, |chain|, pf) == Some(id);
    forall x | x in names + {id} ensures exists k :: 0 <= k < |more| && NameAt(more, k, pf) == Some(x) {
      if x != id {
        var k :| 0 <= k < |chain| && NameAt(chain, k, pf) == Some(x);
        assert NameAt(more, k, pf) == Some(x);
      }
    }
  }

  /** The links name the members walked, in order. */
  ghost predicate Names(links: seq<Link>, chain: seq<Value>, pf: Platform)
  {
    |links| >= |chain| && forall k :: 0 <= k < |chain| ==>
      links[k] == Link(NameAt(chain, k, pf), if k == 0 then Here else Ancestor)
  }

  /** What the walk has: members found one from the other, named by the links, no name twice. */
  ghost predicate Walked(chain: seq<Value>, links: seq<Link>, visited: set<string>, artifact: Value,
                         lookup: ParentLookup, pf: Platform)
  {
    && chain != [] && chain[0] == artifact && |links| == |chain|
    && Ancestry(chain, lookup, pf) && NamesDistinct(chain, pf) && Names(links, chain, pf) && Visited(visited, chain, pf)
  }

  /** Every complete chain from the artifact begins with these members. */
  ghost predicate Leads(chain: seq<Value>, artifact: Value, lookup: ParentLookup, maxHops: nat, pf: Platform,
                        ar: Arithmetic)
  {
    forall c :: Candidate(c, artifact, lookup, maxHops, pf, ar) ==> chain <= c
  }

  ghost predicate NoCandidate(artifact: Value, lookup: ParentLookup, maxHops: nat, pf: Platform, ar: Arithmetic)
  {
    forall c :: !Candidate(c, artifact, lookup, maxHops, pf, ar)
  }

  /**
   * resolveLineageChain. The walk ends after at most `maxHops` hops with no name twice, and reports a complete chain
   * exactly when there is one of at most that length.
   */
  method ResolveLineageChain(artifact: Value, lookup: ParentLookup, maxHops: nat, pf: Platform, ar: Arithmetic)
    returns (links: seq<Link>, complete: bool, issues: seq<ChainIssue>, ghost chain: seq<Value>)
    ensures |links| <= maxHops + 1
    ensures chain != [] && chain[0] == artifact && Ancestry(chain, lookup, pf) && NamesDistinct(chain, pf)
            && Names(links, chain, pf)
    ensures complete ==> Complete(chain, lookup, pf, ar) && |links| == |chain| && issues == []
    ensures complete <==> exists c :: Candidate(c, artifact, lookup, maxHops, pf, ar)
  {
    hide ResolveParent, Complete, Ancestry, NamesDistinct, AllHold, Names, Visited, Candidate, Leads, NoCandidate,
         LinkHolds, FirstName, LineageIssues;
    chain := [artifact];
    var first := FirstName(artifact, pf);
    links := [Link(first, Here)];
    issues := [];
    var visited := if first.Some? && first.value != [] then {first.value} else {};
    var current := artifact;
    var hop := 0;
    Start(artifact, lookup, pf, ar, maxHops);
    while true
      invariant Walked(chain, links, visited, artifact, lookup, pf) && current == chain[|chain| - 1]
      invariant |chain| == hop + 1 && hop <= maxHops
      invariant issues == [] <==> AllHold(chain, ar)
      invariant Leads(chain, artifact, lookup, maxHops, pf, ar)
      decreases maxHops - hop
    {
      var parent := ResolveParent(current, lookup, pf);
      LeadsOn(chain, artifact, lookup, maxHops, pf, ar);
      if parent.Root? { break; }
      if hop >= maxHops {
        issues := issues + [DepthExceeded];
        Nowhere(artifact, lookup, maxHops, pf, ar);
        return links, false, issues, chain;
      }
      if !parent.Found? {
        NamesMore(links, chain, pf, Link(Some(parent.id), NotFound));
        links := links + [Link(Some(parent.id), NotFound)];
        Nowhere(artifact, lookup, maxHops, pf, ar);
        return links, false, issues, chain;
      }
      if parent.id in visited {
        NoReturn(chain, artifact, lookup, maxHops, pf, ar, visited, parent.artifact);
        issues := issues + [CycleDetected];
        Nowhere(artifact, lookup, maxHops, pf, ar);
        return links, false, issues, chain;
      }
      Extend(chain, links, visited, artifact, parent.artifact, lookup, pf, ar, parent.id);
      visited := visited + {parent.id};
      links := links + [Link(Some(parent.id), Ancestor)];
      var ok, found := VerifyLineage(current, parent.artifact, true, ar);
      issues := issues + Errors(found);
      LinkHoldsIs(current, parent.artifact, ar);
      chain := chain + [parent.artifact];
      current := parent.artifact;
      hop := hop + 1;
    }
    if RootMismatched(links[|links| - 1].name, artifact, current, |links|) { issues := issues + [RootMismatch]; }
    complete := issues == [];
    Finish(chain, links, visited, artifact, lookup, maxHops, pf, ar, complete);
  }

  predicate RootMismatched(reached: Option<string>, artifact: Value, root: Value, count: nat)
  {
    var declared, last := RootId(LineageOf(artifact)), LineageOf(root);
    count > 1 && NonEmptyText(declared) && reached != Some(declared.s) && Own(last) != declared
      && RootId(last) != declared
  }

  lemma LinkHoldsIs(a: Value, parent: Value, ar: Arithmetic)
    ensures LinkHolds(a, parent, true, ar) <==> Errors(LineageIssues(a, parent, true, ar)) == []
  {
  }

  lemma Nowhere(artifact: Value, lookup: ParentLookup, maxHops: nat, pf: Platform, ar: Arithmetic)
    ensures NoCandidate(artifact, lookup, maxHops, pf, ar) <==>
              !exists c :: Candidate(c, artifact, lookup, maxHops, pf, ar)
  {
    hide Candidate;
  }

  lemma Start(artifact: Value, lookup: ParentLookup, pf: Platform, ar: Arithmetic, maxHops: nat)
    ensures var first := FirstName(artifact, pf);
            Walked([artifact], [Link(first, Here)], if first.Some? && first.value != [] then {first.value} else {},
                   artifact, lookup, pf)
    ensures AllHold([artifact], ar) && Leads([artifact], artifact, lookup, maxHops, pf, ar)
  {
    hide FirstName, ParentReferenceOf, ResolveParent, RootDeclared, LinkHolds;
    assert NameAt([artifact], 0, pf) == FirstName(artifact, pf);
  }

  /** Where the walk ends no other chain goes on; where it goes on every complete chain does. */
  lemma LeadsOn(chain: seq<Value>, artifact: Value, lookup: ParentLookup, maxHops: nat, pf: Platform, ar: Arithmetic)
    requires chain != [] && Leads(chain, artifact, lookup, maxHops, pf, ar)
    ensures var p := ResolveParent(chain[|chain| - 1], lookup, pf);
            && (p.Root? ==> forall c :: Candidate(c, artifact, lookup, maxHops, pf, ar) ==> c == chain)
            && (p.Found? ==> Leads(chain + [p.artifact], artifact, lookup, maxHops, pf, ar))
            && (!p.Root? && (!p.Found? || |chain| > maxHops) ==> NoCandidate(artifact, lookup, maxHops, pf, ar))
  {
    hide ResolveParent, Candidate;
    var p := ResolveParent(chain[|chain| - 1], lookup, pf);
    forall c | Candidate(c, artifact, lookup, maxHops, pf, ar)
      ensures if p.Root? then chain == c else p.Found? && |chain| < |c| <= maxHops + 1 && chain + [p.artifact] <= c
    {
      NextOfCandidate(c, chain, artifact, lookup, maxHops, pf, ar);
      CandidateLength(c, artifact, lookup, maxHops, pf, ar);
    }
  }

  lemma CandidateLength(c: seq<Value>, artifact: Value, lookup: ParentLookup, maxHops: nat, pf: Platform,
                        ar: Arithmetic)
    requires Candidate(c, artifact, lookup, maxHops, pf, ar)
    ensures |c| <= maxHops + 1
  {
  }

  lemma NamesMore(links: seq<Link>, chain: seq<Value>, pf: Platform, link: Link)
    requires Names(links, chain, pf)
    ensures Names(links + [link], chain, pf)
  {
  }

  /** A walk that comes back to a name it has is on no complete chain. */
  lemma NoReturn(chain: seq<Value>, artifact: Value, lookup: ParentLookup, maxHops: nat, pf: Platform, ar: Arithmetic,
                 visited: set<string>, p: Value)
    requires chain != [] && Visited(visited, chain, pf) && Leads(chain + [p], artifact, lookup, maxHops, pf, ar)
    requires ParentReferenceOf(chain[|chain| - 1]).Some? && ParentReferenceOf(chain[|chain| - 1]).value in visited
    ensures NoCandidate(artifact, lookup, maxHops, pf, ar)
  {
    hide ParentReferenceOf, FirstName, AllHold, RootDeclared, Ancestry, ResolveParent;
    var n := |chain|;
    var k :| 0 <= k < n && NameAt(chain, k, pf) == ParentReferenceOf(chain[n - 1]);
    forall c | chain + [p] <= c ensures !NamesDistinct(c, pf) {
      assert forall i :: 0 <= i < n ==> c[i] == chain[i];
      assert NameAt(c, k, pf) == NameAt(chain, k, pf) && NameAt(c, n, pf) == ParentReferenceOf(chain[n - 1]);
    }
  }

  lemma NamesListed(links: seq<Link>, chain: seq<Value>, p: Value, pf: Platform, id: string)
    requires chain != [] && |links| == |chain| && Names(links, chain, pf)
    requires ParentReferenceOf(chain[|chain| - 1]) == Some(id)
    ensures Names(links + [Link(Some(id), Ancestor)], chain + [p], pf)
  {
    hide ParentReferenceOf, FirstName;
    var more := chain + [p];
    assert forall k :: 0 <= k < |chain| ==> NameAt(more, k, pf) == NameAt(chain, k, pf);
    assert NameAt(more, |chain|, pf) == Some(id);
  }

  /** One more hop keeps everything the walk knows. */
  lemma Extend(chain: seq<Value>, links: seq<Link>, visited: set<string>, artifact: Value, p: Value,
               lookup: ParentLookup, pf: Platform, ar: Arithmetic, id: string)
    requires Walked(chain, links, visited, artifact, lookup, pf)
    requires ResolveParent(chain[|chain| - 1], lookup, pf) == Found(id, p) && id !in visited
    ensures Walked(chain + [p], links + [Link(Some(id), Ancestor)], visited + {id}, artifact, lookup, pf)
    ensures AllHold(chain + [p], ar) <==> AllHold(chain, ar) && LinkHolds(chain[|chain| - 1], p, true, ar)
  {
    hide ResolveParent, AllHold, NamesDistinct, ParentReferenceOf, NameAt, Names, Ancestry, LinkHolds, Visited;
    AncestryGrows(chain, lookup, pf, p);
    NamesGrow(chain, p, pf, visited);
    VisitedGrows(visited, chain, p, pf, id);
    HoldsGrow(chain, p, ar);
    NamesListed(links, chain, p, pf, id);
  }

  /** At a root, what the walk reports is what a complete chain is. */
  lemma Finish(chain: seq<Value>, links: seq<Link>, visited: set<string>, artifact: Value, lookup: ParentLookup,
               maxHops: nat, pf: Platform, ar: Arithmetic, complete: bool)
    requires Walked(chain, links, visited, artifact, lookup, pf) && |chain| <= maxHops + 1
    requires ResolveParent(chain[|chain| - 1], lookup, pf).Root?
    requires forall c :: Candidate(c, artifact, lookup, maxHops, pf, ar) ==> c == chain
    requires complete <==>
               AllHold(chain, ar) && !RootMismatched(links[|links| - 1].name, artifact, chain[|chain| - 1], |links|)
    ensures complete ==> Complete(chain, lookup, pf, ar)
    ensures complete <==> exists c :: Candidate(c, artifact, lookup, maxHops, pf, ar)
  {
    hide ResolveParent, AllHold, NamesDistinct, Ancestry, NameAt, LineageOf, Own, RootId, Visited;
    assert links[|links| - 1].name == NameAt(chain, |chain| - 1, pf);
    assert Candidate(chain, artifact, lookup, maxHops, pf, ar) <==> complete;
  }

  // ----- what a complete chain says

  /** JavaScript compares and increments the integers a number holds exactly as integers. */
  ghost predicate Exact(ar: Arithmetic)
  {
    && (forall m: nat, n: nat {:trigger ar.lessEqual(Num(NatText(m)), Num(NatText(n)))} ::
          m <= MAX_SAFE && n <= MAX_SAFE ==> (ar.lessEqual(Num(NatText(m)), Num(NatText(n))) <==> m <= n))
    && (forall n: nat {:trigger ar.addOne(Num(NatText(n)))} :: n < MAX_SAFE ==>
          ar.addOne(Num(NatText(n))) == Num(NatText(n + 1)))
  }

  const MAX_SAFE: nat := 9007199254740991

  lemma AncestorIsObject(chain: seq<Value>, lookup: ParentLookup, pf: Platform, k: nat)
    requires Ancestry(chain, lookup, pf) && k + 1 < |chain|
    ensures Truthy(chain[k + 1])
    ensures ParentReferenceOf(chain[k]).Some? && CheckArtifactIdentity(chain[k + 1], pf) == ParentReferenceOf(chain[k])
  {
    hide ResolveParent, ParentReferenceOf, CheckArtifactIdentity, ContentHash;
    assert Follows(chain, k, lookup, pf);
  }

  lemma LinkOf(chain: seq<Value>, ar: Arithmetic, k: nat)
    requires AllHold(chain, ar) && k + 1 < |chain| && Truthy(LineageOf(chain[k])) && Truthy(chain[k + 1])
    ensures Linked(chain[k], chain[k + 1], ar) && Truthy(LineageOf(chain[k + 1]))
  {
    hide Truthy, LineageOf, LinkHolds, StrictEqual, NotRising, ValidTransition, IsHash, Own, LineId, RootId, ParentId;
    assert HoldsAt(chain, k, ar);
    LinkHoldsExact(chain[k], chain[k + 1], ar);
  }

  /** Each link of a complete chain from an artifact with a lineage block states the facts of a link. */
  lemma {:induction false} LinkAt(chain: seq<Value>, lookup: ParentLookup, pf: Platform, ar: Arithmetic, k: nat)
    requires Complete(chain, lookup, pf, ar) && Truthy(LineageOf(chain[0])) && k < |chain|
    ensures Truthy(LineageOf(chain[k]))
    ensures k + 1 < |chain| ==> Linked(chain[k], chain[k + 1], ar)
  {
    hide Truthy, LineageOf, ResolveParent, RootDeclared, NamesDistinct, AllHold, Ancestry, Linked, LinkHolds;
    hide ParentReferenceOf, CheckArtifactIdentity, ContentHash;
    if k > 0 {
      LinkAt(chain, lookup, pf, ar, k - 1);
      AncestorIsObject(chain, lookup, pf, k - 1);
      LinkOf(chain, ar, k - 1);
    }
    if k + 1 < |chain| {
      AncestorIsObject(chain, lookup, pf, k);
      LinkOf(chain, ar, k);
    }
  }

  /**
   * Every member of a complete chain is of the network and the mode of its first; every member but the root has its
   * lineage id and its root id; a member found verifies as the identity its child names; and where both of a link's
   * ends declare a sequence the child's is the greater.
   */
  lemma {:induction false} CompleteChainShares(chain: seq<Value>, lookup: ParentLookup, pf: Platform, ar: Arithmetic,
                                               k: nat)
    requires Complete(chain, lookup, pf, ar) && Truthy(LineageOf(chain[0])) && k < |chain|
    ensures Member(chain[k], "networkId") == Member(chain[0], "networkId")
            && Member(chain[k], "mode") == Member(chain[0], "mode")
    ensures k + 1 < |chain| ==>
              && LineId(LineageOf(chain[k])) == LineId(LineageOf(chain[0]))
              && RootId(LineageOf(chain[k])) == RootId(LineageOf(chain[0]))
              && ParentReferenceOf(chain[k]).Some?
              && CheckArtifactIdentity(chain[k + 1], pf) == ParentReferenceOf(chain[k])
              && !NotRising(LineageOf(chain[k]), LineageOf(chain[k + 1]), ar)
  {
    hide Truthy, LineageOf, Complete, ParentReferenceOf, CheckArtifactIdentity, Member, NotRising, ValidTransition,
         IsHash, LineId, RootId, Own, ParentId;
    LinkAt(chain, lookup, pf, ar, k);
    if k + 1 < |chain| {
      AncestryOf(chain, lookup, pf, ar);
      AncestorIsObject(chain, lookup, pf, k);
    }
    if k > 0 {
      CompleteChainShares(chain, lookup, pf, ar, k - 1);
      LinkAt(chain, lookup, pf, ar, k - 1);
      HashesAreTruthy(LineId(LineageOf(chain[k])));
      HashesAreTruthy(RootId(LineageOf(chain[k])));
    }
  }

  lemma AncestryOf(chain: seq<Value>, lookup: ParentLookup, pf: Platform, ar: Arithmetic)
    requires Complete(chain, lookup, pf, ar)
    ensures Ancestry(chain, lookup, pf)
  {
    hide Ancestry;
  }

  lemma RisingNumbers(a: Value, parent: Value, ar: Arithmetic, m: nat, n: nat)
    requires Exact(ar) && NumberAt(a, m) && NumberAt(parent, n)
    ensures NotRising(LineageOf(a), LineageOf(parent), ar) <==> m <= n
  {
    hide Sequence, NatText;
    assert ar.lessEqual(Num(NatText(m)), Num(NatText(n))) <==> m <= n;
  }

  predicate NumberAt(a: Value, n: nat)
  {
    n <= MAX_SAFE && Sequence(LineageOf(a)) == Num(NatText(n))
  }

  ghost predicate Numbered(chain: seq<Value>, numbers: seq<nat>)
  {
    |numbers| == |chain| && forall k :: 0 <= k < |chain| ==> NumberAt(chain[k], numbers[k])
  }

  /** With integer sequences on every member, a complete chain counts strictly down to its root. */
  lemma {:induction false} SequencesFall(chain: seq<Value>, lookup: ParentLookup, pf: Platform, ar: Arithmetic,
                                         numbers: seq<nat>, i: nat, j: nat)
    requires Complete(chain, lookup, pf, ar) && Truthy(LineageOf(chain[0])) && Exact(ar) && Numbered(chain, numbers)
    requires i < j < |chain|
    ensures numbers[i] > numbers[j]
    decreases j
  {
    hide Truthy, LineageOf, Complete, ParentReferenceOf, CheckArtifactIdentity, NotRising, Exact, NumberAt, Member;
    CompleteChainShares(chain, lookup, pf, ar, j - 1);
    assert NumberAt(chain[j - 1], numbers[j - 1]) && NumberAt(chain[j], numbers[j]);
    RisingNumbers(chain[j - 1], chain[j], ar, numbers[j - 1], numbers[j]);
    if i < j - 1 { SequencesFall(chain, lookup, pf, ar, numbers, i, j - 1); }
  }

  /** A chain's first member goes by the identity it verifies as; one that does not verify, by the hash it claims. */
  lemma FirstNamed(a: Value, pf: Platform, id: string)
    ensures FirstName(a, pf) == Some(id) <==>
              || CheckArtifactIdentity(a, pf) == Some(id)
              || (CheckArtifactIdentity(a, pf).None? && Member(a, "contentHash") == Str(id))
  {
    hide CheckArtifactIdentity, ContentHash, Member;
  }

  // ----- how a parent is referred to and found

  /**
   * An artifact refers to a parent exactly by the non-empty text, other than its own id, under `parentArtifactId` of
   * its lineage block; or, when the block has no such member, by a 64-digit hexadecimal under that key at the top
   * level.
   */
  lemma ReferenceExact(a: Value, id: string)
    ensures ParentReferenceOf(a) == Some(id) <==>
              if LineageOf(a).Obj? && HasKey(LineageOf(a).fields, "parentArtifactId") then
                id != "" && ParentId(LineageOf(a)) == Str(id) && Own(LineageOf(a)) != Str(id)
              else Hex64(id) && Member(a, "parentArtifactId") == Str(id)
  {
    hide Hex64;
  }

  /**
   * What looking up a referenced parent answers: a malformed reference is invalid; an answer of the resolver is taken
   * only if it verifies as the reference; otherwise the store decides, missing exactly when no object in it names the
   * reference and invalid when one does without verifying as it; with neither to ask, it stays unresolved.
   */
  lemma ResolveExact(a: Value, lookup: ParentLookup, pf: Platform, id: string)
    requires ParentReferenceOf(a) == Some(id)
    ensures var r, asked := ResolveParent(a, lookup, pf),
              if lookup.resolver.Some? then lookup.resolver.value(id) else Undefined;
            if !Hex64(id) then r == Invalid(id)
            else if Truthy(asked) then
              r == if CheckArtifactIdentity(asked, pf) == Some(id) then Found(id, asked) else Invalid(id)
            else match lookup.store
              case None => r == if lookup.resolver.Some? then Missing(id) else Unresolved(id)
              case Some(entries) =>
                && (r == Missing(id) <==> forall e :: e in entries ==> !NamedBy(e.artifact, id, pf))
                && (r == Invalid(id) <==> exists e :: e in entries && NamedBy(e.artifact, id, pf)
                                                      && CheckArtifactIdentity(e.artifact, pf) != Some(id))
                && (r.Found? || r == Missing(id) || r == Invalid(id))
  {
    hide Hex64, Truthy, CheckArtifactIdentity, ContentHash, NamedBy, ParentReferenceOf, Answer, Answers, ById;
    if lookup.store.Some? {
      var entries := lookup.store.value;
      ByIdExact(entries, id, pf, Answer(entries, ById(id, pf), pf));
    }
  }

  /** The root a chain reaches is the one its first member declares, whenever every link of it holds. */
  lemma RootFollows(chain: seq<Value>, lookup: ParentLookup, pf: Platform, ar: Arithmetic)
    requires Ancestry(chain, lookup, pf) && AllHold(chain, ar) && Truthy(LineageOf(chain[0]))
    ensures RootDeclared(chain, pf)
  {
    hide Truthy, LineageOf, Ancestry, AllHold, RootId, Own, NameAt, Linked, IsHash, NonEmptyText;
    if |chain| > 1 {
      RootHandedOn(chain, lookup, pf, ar, |chain| - 2);
      LinkedIds(chain[|chain| - 2], chain[|chain| - 1], ar);
    }
  }

  lemma LinkedIds(a: Value, p: Value, ar: Arithmetic)
    requires Linked(a, p, ar)
    ensures RootId(LineageOf(a)) == Own(LineageOf(p)) || RootId(LineageOf(a)) == RootId(LineageOf(p))
    ensures RootId(LineageOf(p)) !in [Undefined, Null] ==> RootId(LineageOf(a)) == RootId(LineageOf(p))
    ensures IsHash(RootId(LineageOf(a)))
  {
    hide Truthy, LineageOf, RootId, Own, IsHash, ValidTransition, NotRising, StrictEqual, Member, LineId, ParentId;
  }

  lemma {:induction false} RootHandedOn(chain: seq<Value>, lookup: ParentLookup, pf: Platform, ar: Arithmetic, k: nat)
    requires Ancestry(chain, lookup, pf) && AllHold(chain, ar) && Truthy(LineageOf(chain[0])) && k + 1 < |chain|
    ensures Linked(chain[k], chain[k + 1], ar) && Truthy(LineageOf(chain[k + 1]))
    ensures RootId(LineageOf(chain[k])) == RootId(LineageOf(chain[0]))
  {
    hide Truthy, LineageOf, Ancestry, AllHold, RootId, Own, Linked, ParentReferenceOf, CheckArtifactIdentity, IsHash;
    if k > 0 { RootHandedOn(chain, lookup, pf, ar, k - 1); }
    AncestorIsObject(chain, lookup, pf, k);
    LinkOf(chain, ar, k);
    if k > 0 {
      LinkedIds(chain[k], chain[k + 1], ar);
      LinkedIds(chain[k - 1], chain[k], ar);
      HashIsNothingElse(RootId(LineageOf(chain[k])));
    }
  }

  lemma HashIsNothingElse(v: Value)
    requires IsHash(v)
    ensures v !in [Undefined, Null]
  {
  }
}
