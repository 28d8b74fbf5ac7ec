/**
 * The verified resolver: a lookup over a store that may hold several copies of an artifact, and the store's artifacts
 * as distinct identities.
 */
module Resolver {
  import opened Common
  import opened Json
  import opened HashVersions
  import opened Migration
  import opened Identity

  /** A file of the store and the value it parses to. */
  datatype Entry = Entry(path: string, artifact: Value)

  datatype ResolveError =
    | ArtifactNotFound
    | ReceiptNotFound
    | CandidateInvalid
    | ReferenceAmbiguous
    | LabelAmbiguous
    | ReceiptAmbiguous

  /** What a namespace asks: which artifacts claim to be the answer, which identities may be, and its two failures. */
  datatype Query = Query(claims: Value -> bool, accepts: string -> bool, ambiguous: ResolveError, missing: ResolveError)

  datatype Candidate = Candidate(entry: Entry, artifactId: string)

  datatype Resolved = Resolved(artifact: Value, artifactId: string, path: string, copies: seq<string>)

  /** The entry claims to be what the query asks for; only an object can. */
  predicate Claims(e: Entry, q: Query)
  {
    e.artifact.Obj? && q.claims(e.artifact)
  }

  /** The identity under which a claimant answers the query. */
  function Verdict(e: Entry, q: Query, pf: Platform): (r: Option<string>)
  {
    match CheckArtifactIdentity(e.artifact, pf)
    case Some(id) => if q.accepts(id) then Some(id) else None
    case None => None
  }

  /** The claimants in store order. */
  function Claimants(entries: seq<Entry>, q: Query): (r: seq<Entry>)
    ensures forall e :: e in r <==> e in entries && Claims(e, q)
  {
    if entries == [] then []
    else
      var n := |entries| - 1;
      var front := Claimants(entries[..n], q);
      assert entries == entries[..n] + [entries[n]];
      if Claims(entries[n], q) then front + [entries[n]] else front
  }

  /** Every claimant verifies as an identity the query accepts. */
  ghost predicate AllVerify(entries: seq<Entry>, q: Query, pf: Platform)
  {
    forall e :: e in entries && Claims(e, q) ==> Verdict(e, q, pf).Some?
  }

  ghost predicate OneIdentity(entries: seq<Entry>, q: Query, pf: Platform)
  {
    forall e, f :: e in entries && f in entries && Claims(e, q) && Claims(f, q) ==>
      Verdict(e, q, pf) == Verdict(f, q, pf)
  }

  method Collect(entries: seq<Entry>, q: Query, pf: Platform) returns (valid: seq<Candidate>, invalid: seq<Entry>)
    ensures invalid == [] <==> AllVerify(entries, q, pf)
    ensures forall c :: c in valid ==> Verdict(c.entry, q, pf) == Some(c.artifactId)
    ensures invalid == [] ==> Unlabelled(valid) == Claimants(entries, q)
  {
    hide Verdict;
    valid, invalid := [], [];
    for i := 0 to |entries|
      invariant invalid == [] <==> AllVerify(entries[..i], q, pf)
      invariant forall c :: c in valid ==> Verdict(c.entry, q, pf) == Some(c.artifactId)
      invariant invalid == [] ==> Unlabelled(valid) == Claimants(entries[..i], q)
    {
      var e := entries[i];
      assert entries[..i + 1] == entries[..i] + [e] && entries[..i + 1][..i] == entries[..i];
      if Claims(e, q) {
        var id := Verdict(e, q, pf);
        if id.None? { invalid := invalid + [e]; } else { valid := valid + [Candidate(e, id.value)]; }
      }
    }
    assert entries[..|entries|] == entries;
  }

  function Unlabelled(cs: seq<Candidate>): (r: seq<Entry>)
    ensures |r| == |cs|
    ensures forall k :: 0 <= k < |cs| ==> r[k] == cs[k].entry
  {
    seq(|cs|, k requires 0 <= k < |cs| => cs[k].entry)
  }

  function PathsOf(es: seq<Entry>): (r: seq<string>)
    ensures |r| == |es|
    ensures forall k :: 0 <= k < |es| ==> r[k] == es[k].path
  {
    seq(|es|, k requires 0 <= k < |es| => es[k].path)
  }

  ghost predicate SameId(cs: seq<Candidate>)
  {
    forall i, j :: 0 <= i < |cs| && 0 <= j < |cs| ==> cs[i].artifactId == cs[j].artifactId
  }

  /** The candidates by identity, each group in store order. */
  method Group(cs: seq<Candidate>) returns (groups: map<string, seq<Candidate>>)
    ensures groups.Keys == set c | c in cs :: c.artifactId
    ensures SameId(cs) && cs != [] ==> groups == map[cs[0].artifactId := cs]
  {
    groups := map[];
    for i := 0 to |cs|
      invariant groups.Keys == set c | c in cs[..i] :: c.artifactId
      invariant i == 0 ==> groups == map[]
      invariant SameId(cs) && i > 0 ==> groups == map[cs[0].artifactId := cs[..i]]
    {
      var c := cs[i];
      assert cs[..i + 1] == cs[..i] + [c];
      assert SameId(cs) ==> c.artifactId == cs[0].artifactId;
      if c.artifactId in groups { groups := groups[c.artifactId := groups[c.artifactId] + [c]]; }
      else { groups := groups[c.artifactId := [c]]; }
      assert SameId(cs) ==> groups.Keys == {cs[0].artifactId} && groups[cs[0].artifactId] == cs[..i + 1];
    }
    assert cs[..|cs|] == cs;
  }

  lemma OneGroup(cs: seq<Candidate>)
    requires cs != []
    ensures var ids := set c | c in cs :: c.artifactId; |ids| >= 1 && (|ids| == 1 <==> SameId(cs))
  {
    var ids := set c | c in cs :: c.artifactId;
    assert cs[0].artifactId in ids;
    if SameId(cs) {
      assert ids == {cs[0].artifactId};
    } else {
      var i, j :| 0 <= i < |cs| && 0 <= j < |cs| && cs[i].artifactId != cs[j].artifactId;
      assert {cs[i].artifactId, cs[j].artifactId} <= ids;
      SubsetSize({cs[i].artifactId, cs[j].artifactId}, ids);
    }
  }

  lemma {:induction false} SubsetSize<T>(a: set<T>, b: set<T>)
    requires a <= b
    ensures |a| <= |b|
  {
    if a != {} {
      var x :| x in a;
      SubsetSize(a - {x}, b - {x});
    }
  }

  method Pick(valid: seq<Candidate>, invalid: seq<Entry>, q: Query) returns (r: Result<Resolved, ResolveError>)
    ensures invalid != [] ==> r == Err(CandidateInvalid)
    ensures invalid == [] && valid == [] ==> r == Err(q.missing)
    ensures invalid == [] && valid != [] && !SameId(valid) ==> r == Err(q.ambiguous)
    ensures invalid == [] && valid != [] && SameId(valid) ==>
              r == Ok(Resolved(valid[0].entry.artifact, valid[0].artifactId, valid[0].entry.path,
                               PathsOf(Unlabelled(valid))))
  {
    if invalid != [] { return Err(CandidateInvalid); }
    if valid == [] { return Err(q.missing); }
    var groups := Group(valid);
    OneGroup(valid);
    if |groups.Keys| > 1 { return Err(q.ambiguous); }
    var copies := groups[valid[0].artifactId];
    r := Ok(Resolved(copies[0].entry.artifact, copies[0].artifactId, copies[0].entry.path,
                     PathsOf(Unlabelled(copies))));
  }

  /** What a lookup answers: nothing while a claimant does not verify, one identity only when every claimant has it. */
  ghost predicate Answers(r: Result<Resolved, ResolveError>, entries: seq<Entry>, q: Query, pf: Platform)
  {
    var cs := Claimants(entries, q);
    if !AllVerify(entries, q, pf) then r == Err(CandidateInvalid)
    else if cs == [] then r == Err(q.missing)
    else if !OneIdentity(entries, q, pf) then r == Err(q.ambiguous)
    else
      && r.Ok? && Verdict(cs[0], q, pf) == Some(r.value.artifactId)
      && r.value.artifact == cs[0].artifact && r.value.path == cs[0].path && r.value.copies == PathsOf(cs)
  }

  /** collect, then pick. */
  method Resolve(entries: seq<Entry>, q: Query, pf: Platform) returns (r: Result<Resolved, ResolveError>)
    ensures Answers(r, entries, q, pf)
  {
    hide Verdict;
    var valid, invalid := Collect(entries, q, pf);
    r := Pick(valid, invalid, q);
    if invalid == [] && valid != [] {
      assert Unlabelled(valid) == Claimants(entries, q);
      SameIdExact(entries, q, pf, valid);
      assert valid[0] in valid;
    }
  }

  lemma SameIdExact(entries: seq<Entry>, q: Query, pf: Platform, valid: seq<Candidate>)
    requires Unlabelled(valid) == Claimants(entries, q)
             && forall c :: c in valid ==> Verdict(c.entry, q, pf) == Some(c.artifactId)
    ensures SameId(valid) <==> OneIdentity(entries, q, pf)
  {
    hide Verdict, Claimants;
    var cs := Claimants(entries, q);
    if SameId(valid) {
      forall e, f | e in entries && f in entries && Claims(e, q) && Claims(f, q)
        ensures Verdict(e, q, pf) == Verdict(f, q, pf) {
        var i :| 0 <= i < |cs| && cs[i] == e;
        var j :| 0 <= j < |cs| && cs[j] == f;
        assert valid[i] in valid && valid[j] in valid;
      }
    }
    if OneIdentity(entries, q, pf) {
      forall i, j | 0 <= i < |valid| && 0 <= j < |valid| ensures valid[i].artifactId == valid[j].artifactId {
        assert valid[i] in valid && valid[j] in valid && cs[i] in cs && cs[j] in cs;
      }
    }
  }

  /** The one answer there is. */
  function Answer(entries: seq<Entry>, q: Query, pf: Platform): (r: Result<Resolved, ResolveError>)
    ensures Answers(r, entries, q, pf)
  {
    hide Verdict;
    var cs := Claimants(entries, q);
    if exists e :: e in cs && Verdict(e, q, pf).None? then Err(CandidateInvalid)
    else if cs == [] then Err(q.missing)
    else
      assert cs[0] in cs;
      if exists e :: e in cs && Verdict(e, q, pf) != Verdict(cs[0], q, pf) then Err(q.ambiguous)
      else Ok(Resolved(cs[0].artifact, Verdict(cs[0], q, pf).value, cs[0].path, PathsOf(cs)))
  }

  // ----- what the answer depends on

  /** The two stores hold the same claiming artifacts, in whatever order, under whatever paths, however often. */
  ghost predicate SameClaims(s: seq<Entry>, t: seq<Entry>, q: Query)
  {
    && (forall e :: e in s && Claims(e, q) ==> exists f :: f in t && f.artifact == e.artifact)
    && (forall f :: f in t && Claims(f, q) ==> exists e :: e in s && e.artifact == f.artifact)
  }

  /** The failure, or the identity found. */
  function Outcome(r: Result<Resolved, ResolveError>): (o: Result<string, ResolveError>)
  {
    match r case Ok(x) => Ok(x.artifactId) case Err(e) => Err(e)
  }

  lemma ClaimsMatched(s: seq<Entry>, t: seq<Entry>, q: Query, pf: Platform, e: Entry) returns (f: Entry)
    requires SameClaims(s, t, q) && e in s && Claims(e, q)
    ensures f in t && Claims(f, q) && Verdict(f, q, pf) == Verdict(e, q, pf)
  {
    hide CheckArtifactIdentity, ContentHash, DeclaredVersion, Member;
    f :| f in t && f.artifact == e.artifact;
  }

  lemma AllVerifyMatched(s: seq<Entry>, t: seq<Entry>, q: Query, pf: Platform)
    requires SameClaims(s, t, q)
    ensures AllVerify(t, q, pf) ==> AllVerify(s, q, pf)
    ensures OneIdentity(t, q, pf) ==> OneIdentity(s, q, pf)
  {
    hide Verdict, SameClaims;
    if AllVerify(t, q, pf) {
      forall e | e in s && Claims(e, q) ensures Verdict(e, q, pf).Some? {
        var f := ClaimsMatched(s, t, q, pf, e);
      }
    }
    if OneIdentity(t, q, pf) {
      forall d, e | d in s && e in s && Claims(d, q) && Claims(e, q) ensures Verdict(d, q, pf) == Verdict(e, q, pf) {
        var f := ClaimsMatched(s, t, q, pf, d);
        var g := ClaimsMatched(s, t, q, pf, e);
      }
    }
  }

  /**
   * Reordering the store, adding copies or adding artifacts that claim nothing changes neither outcome nor identity.
   */
  lemma LookupIgnoresLayout(s: seq<Entry>, t: seq<Entry>, q: Query, pf: Platform, a: Result<Resolved, ResolveError>,
                            b: Result<Resolved, ResolveError>)
    requires SameClaims(s, t, q) && Answers(a, s, q, pf) && Answers(b, t, q, pf)
    ensures Outcome(a) == Outcome(b)
  {
    hide Verdict, Claimants, AllVerify, OneIdentity;
    assert SameClaims(t, s, q);
    AllVerifyMatched(s, t, q, pf);
    AllVerifyMatched(t, s, q, pf);
    var cs, ds := Claimants(s, q), Claimants(t, q);
    if cs != [] {
      assert cs[0] in cs;
      var f := ClaimsMatched(s, t, q, pf, cs[0]);
      assert f in ds;
      if OneIdentity(t, q, pf) { SharedVerdict(t, q, pf, f, ds[0]); }
    } else if ds != [] {
      assert ds[0] in ds;
      var f := ClaimsMatched(t, s, q, pf, ds[0]);
    }
  }

  lemma SharedVerdict(t: seq<Entry>, q: Query, pf: Platform, e: Entry, f: Entry)
    requires OneIdentity(t, q, pf) && e in t && Claims(e, q) && f in Claimants(t, q)
    ensures Verdict(e, q, pf) == Verdict(f, q, pf)
  {
  }

  // ----- by artifactId

  /** A claim of an identity is the declared contentHash, the lineage's own id, or the recomputed hash. */
  function ById(id: string, pf: Platform): (q: Query)
  {
    Query((a: Value) =>
            Member(a, "contentHash") == Str(id) || Member(Member(a, "lineage"), "artifactId") == Str(id)
              || Recomputed(a, pf) == Some(id),
          (found: string) => found == id, ReferenceAmbiguous, ArtifactNotFound)
  }

  lemma QueryById(id: string, pf: Platform)
    ensures ById(id, pf).ambiguous == ReferenceAmbiguous && ById(id, pf).missing == ArtifactNotFound
  {
  }

  lemma VerdictById(e: Entry, id: string, pf: Platform)
    ensures Verdict(e, ById(id, pf), pf).Some? <==> CheckArtifactIdentity(e.artifact, pf) == Some(id)
    ensures Verdict(e, ById(id, pf), pf).Some? ==> Verdict(e, ById(id, pf), pf) == Some(id)
  {
    hide CheckArtifactIdentity, ContentHash, DeclaredVersion, Member, Recomputed;
  }

  /** An object names an identity: as its contentHash, as its lineage's own id, or by hashing to it. */
  predicate NamedBy(a: Value, id: string, pf: Platform)
  {
    a.Obj? &&
    (|| Lookup(a.fields, "contentHash") == Some(Str(id))
     || (Lookup(a.fields, "lineage").Some? && Member(Lookup(a.fields, "lineage").value, "artifactId") == Str(id))
     || (DeclaredVersion(a).Some? && ContentHash(a, DeclaredVersion(a).value, pf) == id))
  }

  lemma ClaimsById(e: Entry, id: string, pf: Platform)
    ensures Claims(e, ById(id, pf)) <==> NamedBy(e.artifact, id, pf)
  {
    hide ContentHash, DeclaredVersion, Lookup;
  }

  /**
   * A lookup by artifactId is never ambiguous, and finds exactly when some object names the identity and every one that
   * does verifies as it: one that names it and does not stops the lookup.
   */
  lemma ByIdExact(entries: seq<Entry>, id: string, pf: Platform, r: Result<Resolved, ResolveError>)
    requires Answers(r, entries, ById(id, pf), pf)
    ensures r.Ok? <==>
              && (exists e :: e in entries && NamedBy(e.artifact, id, pf))
              && (forall e :: e in entries && NamedBy(e.artifact, id, pf) ==>
                    CheckArtifactIdentity(e.artifact, pf) == Some(id))
    ensures r == Err(ArtifactNotFound) <==> forall e :: e in entries ==> !NamedBy(e.artifact, id, pf)
    ensures r.Ok? || r == Err(ArtifactNotFound) || r == Err(CandidateInvalid)
    ensures r.Ok? ==> r.value.artifactId == id && CheckArtifactIdentity(r.value.artifact, pf) == Some(id)
    ensures r.Ok? ==> exists e :: e in entries && e.path == r.value.path && e.artifact == r.value.artifact
  {
    hide CheckArtifactIdentity, ById, Verdict, Claims, NamedBy, ContentHash, DeclaredVersion, Member;
    var q := ById(id, pf);
    var cs := Claimants(entries, q);
    QueryById(id, pf);
    forall e ensures Claims(e, q) <==> NamedBy(e.artifact, id, pf) { ClaimsById(e, id, pf); }
    forall e ensures Verdict(e, q, pf).Some? <==> CheckArtifactIdentity(e.artifact, pf) == Some(id)
             ensures Verdict(e, q, pf).Some? ==> Verdict(e, q, pf) == Some(id)
    {
      VerdictById(e, id, pf);
    }
    if cs != [] { assert cs[0] in cs; }
    if exists e :: e in entries && Claims(e, q) {
      var e :| e in entries && Claims(e, q);
      assert e in cs;
    }
  }

  /** Hashes of the canonical forms of these artifacts do not collide. */
  ghost predicate CollisionFree(a: Value, b: Value, pf: Platform)
  {
    DeclaredVersion(a).Some? && DeclaredVersion(b).Some? &&
    ContentHash(a, DeclaredVersion(a).value, pf) == ContentHash(b, DeclaredVersion(b).value, pf) ==>
      CanonicalForm(a, DeclaredVersion(a).value, pf.nfc) == CanonicalForm(b, DeclaredVersion(b).value, pf.nfc)
  }

  /**
   * Which copy answers does not matter: any two claimants of a successful lookup have one canonical form, and version 5
   * is declared by both or by neither.
   */
  lemma CopiesAgree(entries: seq<Entry>, id: string, pf: Platform, r: Result<Resolved, ResolveError>, e: Entry,
                    f: Entry)
    requires Answers(r, entries, ById(id, pf), pf) && r.Ok?
    requires e in entries && f in entries && NamedBy(e.artifact, id, pf) && NamedBy(f.artifact, id, pf)
    requires WellFormed(e.artifact) && WellFormed(f.artifact) && CollisionFree(e.artifact, f.artifact, pf)
    ensures DeclaredVersion(e.artifact).Some? && DeclaredVersion(f.artifact).Some?
    ensures CanonicalForm(e.artifact, DeclaredVersion(e.artifact).value, pf.nfc)
            == CanonicalForm(f.artifact, DeclaredVersion(f.artifact).value, pf.nfc)
    ensures DeclaredVersion(e.artifact) == Some(5) <==> DeclaredVersion(f.artifact) == Some(5)
  {
    hide NamedBy, ById, CanonicalForm, ContentHash, DeclaredVersion, Answers, CheckArtifactIdentity, WellFormed;
    hide CollisionFree;
    ByIdExact(entries, id, pf, r);
    assert CheckArtifactIdentity(e.artifact, pf) == Some(id) && CheckArtifactIdentity(f.artifact, pf) == Some(id);
    IdentitiesAgree(e.artifact, f.artifact, id, pf);
  }

  lemma IdentitiesAgree(a: Value, b: Value, id: string, pf: Platform)
    requires CheckArtifactIdentity(a, pf) == Some(id) && CheckArtifactIdentity(b, pf) == Some(id)
    requires WellFormed(a) && WellFormed(b) && CollisionFree(a, b, pf)
    ensures DeclaredVersion(a).Some? && DeclaredVersion(b).Some?
    ensures CanonicalForm(a, DeclaredVersion(a).value, pf.nfc) == CanonicalForm(b, DeclaredVersion(b).value, pf.nfc)
    ensures DeclaredVersion(a) == Some(5) <==> DeclaredVersion(b) == Some(5)
  {
    hide CanonicalForm, ContentHash, DeclaredVersion, CheckArtifactIdentity, WellFormed;
    if DeclaredVersion(a) == Some(5) && DeclaredVersion(b) != Some(5) { VersionsSeparated(a, b, pf.nfc); }
    if DeclaredVersion(b) == Some(5) && DeclaredVersion(a) != Some(5) { VersionsSeparated(b, a, pf.nfc); }
  }

  // ----- the store as distinct identities

  /**
   * What names the copies of an identity: where the store keeps its root copies, and the identity an entry verifies as.
   */
  datatype View = View(atStoreRoot: string -> bool, pf: Platform)

  /** compareStoreCopies: a copy in a canonical subdirectory before one at the store root, then by path. */
  predicate CopyBefore(a: string, b: string, v: View)
  {
    if v.atStoreRoot(a) == v.atStoreRoot(b) then KeyLess(a, b) else v.atStoreRoot(b)
  }

  lemma CopyOrder(a: string, b: string, c: string, v: View)
    ensures a == b || CopyBefore(a, b, v) || CopyBefore(b, a, v)
    ensures !(CopyBefore(a, b, v) && CopyBefore(b, a, v)) && !CopyBefore(a, a, v)
    ensures CopyBefore(a, b, v) && CopyBefore(b, c, v) ==> CopyBefore(a, c, v)
  {
    KeyLessTotal(a, b);
    if KeyLess(a, b) { KeyLessAsymmetric(a, b); }
    if KeyLess(a, a) { KeyLessAsymmetric(a, a); }
    if KeyLess(a, b) && KeyLess(b, c) { KeyLessTransitive(a, b, c); }
  }

  /** A copy at the store root represents an identity only when every copy is there; otherwise the first path does. */
  lemma NestedCopyFirst(e: Entry, f: Entry, entries: seq<Entry>, v: View)
    requires FirstCopy(e, entries, v) && f in entries && IdOf(f, v) == IdOf(e, v)
    ensures v.atStoreRoot(e.path) ==> v.atStoreRoot(f.path)
    ensures v.atStoreRoot(e.path) == v.atStoreRoot(f.path) ==> f.path == e.path || KeyLess(e.path, f.path)
  {
    hide IdOf;
  }

  function IdOf(e: Entry, v: View): (r: Option<string>)
  {
    CheckArtifactIdentity(e.artifact, v.pf)
  }

  ghost predicate DistinctPaths(entries: seq<Entry>)
  {
    forall i, j :: 0 <= i < j < |entries| ==> entries[i].path != entries[j].path
  }

  /** The entry is the first of the copies of its identity. */
  ghost predicate FirstCopy(e: Entry, entries: seq<Entry>, v: View)
  {
    forall f :: f in entries && IdOf(f, v) == IdOf(e, v) ==> f.path == e.path || CopyBefore(e.path, f.path, v)
  }

  /** The representative of an identity: the copy the order puts first. */
  method Representatives(entries: seq<Entry>, v: View) returns (rep: map<string, Entry>)
    ensures Represents(rep, entries, v)
    ensures forall id :: id in rep ==> FirstCopy(rep[id], entries, v)
  {
    hide IdOf, CopyBefore;
    rep := map[];
    for i := 0 to |entries|
      invariant forall id :: id in rep <==> exists e :: e in entries[..i] && IdOf(e, v) == Some(id)
      invariant forall id :: id in rep ==>
                  rep[id] in entries[..i] && IdOf(rep[id], v) == Some(id) && FirstCopy(rep[id], entries[..i], v)
    {
      var e := entries[i];
      ghost var before := rep;
      assert entries[..i + 1] == entries[..i] + [e];
      var id := IdOf(e, v);
      if id.Some? && (id.value !in rep || CopyBefore(e.path, rep[id.value].path, v)) {
        rep := rep[id.value := e];
      }
      forall k | k in rep ensures FirstCopy(rep[k], entries[..i + 1], v) {
        NextFirstCopy(before, entries[..i], e, v, k, rep[k]);
      }
    }
    assert entries[..|entries|] == entries;
  }

  lemma NextFirstCopy(rep: map<string, Entry>, done: seq<Entry>, e: Entry, v: View, id: string, now: Entry)
    requires id in rep ==> rep[id] in done && IdOf(rep[id], v) == Some(id) && FirstCopy(rep[id], done, v)
    requires id !in rep ==> forall f :: f in done ==> IdOf(f, v) != Some(id)
    requires now == (if IdOf(e, v) == Some(id) && (id !in rep || CopyBefore(e.path, rep[id].path, v)) then e
                     else if id in rep then rep[id] else now)
    requires IdOf(now, v) == Some(id) && (id in rep || IdOf(e, v) == Some(id))
    ensures FirstCopy(now, done + [e], v)
  {
    hide IdOf, CopyBefore;
    forall f | f in done + [e] && IdOf(f, v) == IdOf(now, v)
      ensures f.path == now.path || CopyBefore(now.path, f.path, v) {
      if id in rep {
        CopyOrder(rep[id].path, e.path, e.path, v);
        if f in done { CopyOrder(e.path, rep[id].path, f.path, v); }
      }
    }
  }

  /**
   * The entry stands in the list of distinct artifacts: it does not verify, or it is the first copy of its identity.
   */
  ghost predicate Stands(e: Entry, entries: seq<Entry>, v: View)
  {
    IdOf(e, v).None? || FirstCopy(e, entries, v)
  }

  /** The entries of a list that satisfy a test, in order. */
  function Keep(entries: seq<Entry>, test: Entry -> bool): (r: seq<Entry>)
    ensures forall e :: e in r <==> e in entries && test(e)
  {
    if entries == [] then []
    else
      var n := |entries| - 1;
      var front := Keep(entries[..n], test);
      assert entries == entries[..n] + [entries[n]];
      if test(entries[n]) then front + [entries[n]] else front
  }

  /** distinctWorkspaceArtifactsSync: exactly the entries that stand, in store order. */
  method DistinctArtifacts(entries: seq<Entry>, v: View) returns (r: seq<Entry>)
    requires DistinctPaths(entries)
    ensures forall e :: e in r <==> e in entries && Stands(e, entries, v)
    ensures r == Keep(entries, e => e in r)
    ensures |r| == |Identities(entries, v)| + |Keep(entries, e => IdOf(e, v).None?)|
  {
    hide IdOf, CopyBefore;
    var rep := Representatives(entries, v);
    var test := (e: Entry) => IdOf(e, v).None? || (IdOf(e, v).value in rep && rep[IdOf(e, v).value].path == e.path);
    r := Keep(entries, test);
    forall e | e in entries ensures test(e) <==> Stands(e, entries, v) {
      if IdOf(e, v).Some? { RepresentativeStands(entries, v, e, rep[IdOf(e, v).value]); }
    }
    KeepSame(entries, test, e => e in r);
    DistinctCount(entries, v, rep);
    KeepSame(entries, test, e => IdOf(e, v).None? || IsRepresentative(e, v, rep));
  }

  predicate IsRepresentative(e: Entry, v: View, rep: map<string, Entry>)
  {
    IdOf(e, v).Some? && IdOf(e, v).value in rep && rep[IdOf(e, v).value].path == e.path
  }

  lemma {:induction false} KeepSplit(entries: seq<Entry>, a: Entry -> bool, b: Entry -> bool)
    requires forall e :: !(a(e) && b(e))
    ensures |Keep(entries, e => a(e) || b(e))| == |Keep(entries, a)| + |Keep(entries, b)|
  {
    if entries != [] {
      var front := entries[..|entries| - 1];
      KeepSplit(front, a, b);
      KeepSame(front, e => a(e) || b(e), e => a(e) || b(e));
    }
  }

  lemma {:induction false} KeepDistinct(entries: seq<Entry>, test: Entry -> bool)
    requires DistinctPaths(entries)
    ensures DistinctPaths(Keep(entries, test))
  {
    if entries != [] {
      var n := |entries| - 1;
      KeepDistinct(entries[..n], test);
      forall e | e in Keep(entries[..n], test) ensures e.path != entries[n].path {
        var i :| 0 <= i < n && entries[i] == e;
      }
    }
  }

  /** As many entries as identities, when no two share one. */
  lemma {:induction false} OnePerIdentity(es: seq<Entry>, v: View)
    requires forall e :: e in es ==> IdOf(e, v).Some?
    requires forall i, j :: 0 <= i < j < |es| ==> IdOf(es[i], v) != IdOf(es[j], v)
    ensures |es| == |Identities(es, v)|
  {
    hide IdOf;
    if es != [] {
      var n := |es| - 1;
      var front := es[..n];
      OnePerIdentity(front, v);
      assert es == front + [es[n]];
      assert Identities(es, v) == Identities(front, v) + {IdOf(es[n], v).value};
      assert IdOf(es[n], v).value !in Identities(front, v);
    }
  }

  ghost predicate Represents(rep: map<string, Entry>, entries: seq<Entry>, v: View)
  {
    && (forall id :: id in rep <==> exists e :: e in entries && IdOf(e, v) == Some(id))
    && (forall id :: id in rep ==> rep[id] in entries && IdOf(rep[id], v) == Some(id))
  }

  lemma DistinctCount(entries: seq<Entry>, v: View, rep: map<string, Entry>)
    requires DistinctPaths(entries) && Represents(rep, entries, v)
    ensures |Keep(entries, e => IdOf(e, v).None? || IsRepresentative(e, v, rep))|
            == |Identities(entries, v)| + |Keep(entries, e => IdOf(e, v).None?)|
  {
    hide IdOf, Keep;
    var none := (e: Entry) => IdOf(e, v).None?;
    var first := (e: Entry) => IsRepresentative(e, v, rep);
    KeepSplit(entries, none, first);
    KeepSame(entries, e => none(e) || first(e), e => IdOf(e, v).None? || IsRepresentative(e, v, rep));
    KeepSame(entries, none, e => IdOf(e, v).None?);
    var es := Keep(entries, first);
    KeepDistinct(entries, first);
    forall i, j | 0 <= i < j < |es| ensures IdOf(es[i], v) != IdOf(es[j], v) {
      assert es[i] in es && es[j] in es;
    }
    OnePerIdentity(es, v);
    SameIdentities(entries, v, rep, es);
  }

  lemma SameIdentities(entries: seq<Entry>, v: View, rep: map<string, Entry>, es: seq<Entry>)
    requires Represents(rep, entries, v) && forall e :: e in es <==> e in entries && IsRepresentative(e, v, rep)
    ensures Identities(es, v) == Identities(entries, v)
  {
    hide IdOf;
    forall id | id in Identities(entries, v) ensures id in Identities(es, v) {
      assert id in rep && rep[id] in es;
    }
  }

  lemma {:induction false} KeepSame(entries: seq<Entry>, a: Entry -> bool, b: Entry -> bool)
    requires forall e :: e in entries ==> a(e) == b(e)
    ensures Keep(entries, a) == Keep(entries, b)
  {
    if entries != [] { KeepSame(entries[..|entries| - 1], a, b); }
  }

  lemma RepresentativeStands(entries: seq<Entry>, v: View, e: Entry, rep: Entry)
    requires DistinctPaths(entries) && e in entries && rep in entries && IdOf(e, v) == IdOf(rep, v)
             && FirstCopy(rep, entries, v)
    ensures rep.path == e.path <==> FirstCopy(e, entries, v)
    ensures rep.path == e.path ==> rep == e
  {
    hide IdOf, CopyBefore;
    CopyOrder(rep.path, e.path, e.path, v);
    var i :| 0 <= i < |entries| && entries[i] == e;
    var j :| 0 <= j < |entries| && entries[j] == rep;
  }

  /** countWorkspaceArtifactsSync: the distinct identities and the entries without one. */
  method CountArtifacts(entries: seq<Entry>, v: View) returns (artifacts: nat, unverified: nat)
    ensures artifacts == |Identities(entries, v)| + unverified
    ensures unverified == |Keep(entries, e => IdOf(e, v).None?)|
  {
    hide IdOf;
    var ids: set<string> := {};
    unverified := 0;
    var test := (e: Entry) => IdOf(e, v).None?;
    for i := 0 to |entries|
      invariant ids == Identities(entries[..i], v)
      invariant unverified == |Keep(entries[..i], test)|
    {
      var e := entries[i];
      assert entries[..i + 1] == entries[..i] + [e] && entries[..i + 1][..i] == entries[..i];
      var id := IdOf(e, v);
      if id.Some? { ids := ids + {id.value}; } else { unverified := unverified + 1; }
    }
    assert entries[..|entries|] == entries;
    artifacts := |ids| + unverified;
    KeepSame(entries, test, e => IdOf(e, v).None?);
  }

  ghost function Identities(entries: seq<Entry>, v: View): set<string>
  {
    set e | e in entries && IdOf(e, v).Some? :: IdOf(e, v).value
  }
}
