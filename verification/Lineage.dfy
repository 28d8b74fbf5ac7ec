/** Lineage blocks: what links an artifact to its parent, the check of one link, and the block a producer stamps. */
module Lineage {
  import opened Common
  import opened Json
  import opened HashVersions
  import opened Identity

  datatype Code =
    | MissingLineage | InvalidStructure | InvalidFormat | RootSelfReference | IdentityMismatch
    | ParentMissingLineage | MissingParentId | ParentIdMismatch | LineageIdMismatch | RootIdMismatch
    | NonMonotonicSequence | NetworkMismatch | ModeMismatch | SelfParent | InvalidTransition

  datatype Severity = Error | Warning

  datatype Issue = Issue(code: Code, severity: Severity)

  /** JavaScript's `+ 1` and `<=` on the values a sequence may hold. */
  datatype Arithmetic = Arithmetic(addOne: Value -> Value, lessEqual: (Value, Value) -> bool)

  function LineageOf(a: Value): (r: Value)
  {
    Member(a, "lineage")
  }

  function Own(l: Value): (r: Value) { Member(l, "artifactId") }

  function LineId(l: Value): (r: Value) { Member(l, "lineageId") }

  function RootId(l: Value): (r: Value) { Member(l, "rootArtifactId") }

  function ParentId(l: Value): (r: Value) { Member(l, "parentArtifactId") }

  function Sequence(l: Value): (r: Value) { Member(l, "sequence") }

  predicate AnyCaseHex(c: char)
  {
    '0' <= c <= '9' || 'a' <= c <= 'f' || 'A' <= c <= 'F'
  }

  predicate IsHash(v: Value)
  {
    v.Str? && |v.s| == 64 && forall i :: 0 <= i < 64 ==> AnyCaseHex(v.s[i])
  }

  /** A hash is a text of 64 digits, each of which some hexadecimal value has, in either case. */
  lemma HashExact(v: Value)
    ensures IsHash(v) <==>
              v.Str? && |v.s| == 64 && forall i :: 0 <= i < 64 ==> v.s[i] in "0123456789abcdefABCDEF"
  {
    var digits := "0123456789abcdefABCDEF";
    forall c: char ensures AnyCaseHex(c) <==> c in digits {
      if '0' <= c <= '9' { assert digits[c as int - '0' as int] == c; }
      if 'a' <= c <= 'f' { assert digits[c as int - 'a' as int + 10] == c; }
      if 'A' <= c <= 'F' { assert digits[c as int - 'A' as int + 16] == c; }
    }
  }

  predicate Nullish(v: Value)
  {
    v.Undefined? || v.Null?
  }

  /** A version-5 block without a parent is a root's. */
  predicate RootForm(a: Value)
  {
    DeclaredVersion(a) == Some(5) && !Truthy(ParentId(LineageOf(a)))
  }

  // ----- schema transitions

  const SNAPSHOT: string := "hardkas.snapshot"
  const SNAPSHOT_V1: string := "hardkas.snapshot.v1"
  const TX_PLAN: string := "hardkas.txPlan"
  const SIGNED_TX: string := "hardkas.signedTx"
  const TX_RECEIPT: string := "hardkas.txReceipt"
  const TX_SUBMISSION: string := "hardkas.txSubmission.v1"
  const TX_OBSERVATION: string := "hardkas.txObservation.v1"
  const TX_TRACE: string := "hardkas.txTrace"
  const REPLAY_REPORT: string := "hardkas.replayReport.v1"
  const MIGRATION_RECEIPT: string := "hardkas.migrationReceipt.v1"
  const WORKFLOW: string := "hardkas.workflow.v1"

  /** The children the transition table allows below a schema. */
  function AllowedBelow(parent: Value): (r: seq<string>)
  {
    if parent == Str(SNAPSHOT) then [TX_PLAN, MIGRATION_RECEIPT]
    else if parent == Str(TX_PLAN) then [SIGNED_TX, MIGRATION_RECEIPT]
    else if parent == Str(SIGNED_TX) then [TX_RECEIPT, TX_SUBMISSION, SIGNED_TX, MIGRATION_RECEIPT]
    else if parent == Str(TX_RECEIPT) then [TX_TRACE, REPLAY_REPORT, MIGRATION_RECEIPT]
    else if parent == Str(TX_SUBMISSION) then [MIGRATION_RECEIPT]
    else []
  }

  /** A schema without its `.v1` suffix. */
  function Base(schema: Value): (r: string)
  {
    if !schema.Str? then []
    else if |schema.s| >= 3 && schema.s[|schema.s| - 3..] == ".v1" then schema.s[..|schema.s| - 3]
    else schema.s
  }

  predicate ValidTransition(a: Value, parent: Value)
  {
    var child, above := Member(a, "schema"), Member(parent, "schema");
    || (if above == Str(MIGRATION_RECEIPT) then StrictEqual(Member(parent, "toSchema"), child)
        else if child == Str(MIGRATION_RECEIPT) then StrictEqual(Member(a, "fromSchema"), above)
        else child.Str? && child.s in AllowedBelow(above))
    || (Base(above) != [] && Base(above) == Base(child))
  }

  /** `.v1` ends the text. */
  predicate Suffixed(s: string)
  {
    |s| >= 3 && s[|s| - 3..] == ".v1"
  }

  /** The schema is `b`, or `b` with one `.v1` more. */
  predicate Versions(schema: Value, b: string)
  {
    schema == Str(b + ".v1") || (schema == Str(b) && !Suffixed(b))
  }

  lemma BaseExact(schema: Value, b: string)
    requires b != []
    ensures Base(schema) == b <==> Versions(schema, b)
  {
    assert (b + ".v1")[|b|..] == ".v1";
    if schema.Str? && Suffixed(schema.s) {
      var n := |schema.s| - 3;
      assert schema.s == schema.s[..n] + schema.s[n..];
      if schema.s == b + ".v1" { assert schema.s[..n] == b; }
    }
  }

  /** What may follow what, receipts of migrations and new spellings of one schema apart. */
  ghost const SUCCESSIONS: set<(string, string)> :=
    {("hardkas.snapshot", "hardkas.txPlan"), ("hardkas.txPlan", "hardkas.signedTx"),
     ("hardkas.signedTx", "hardkas.signedTx"), ("hardkas.signedTx", "hardkas.txReceipt"),
     ("hardkas.signedTx", "hardkas.txSubmission.v1"), ("hardkas.txReceipt", "hardkas.txTrace"),
     ("hardkas.txReceipt", "hardkas.replayReport.v1")}

  lemma AllowedExact(parent: Value, child: string)
    requires child != MIGRATION_RECEIPT
    ensures child in AllowedBelow(parent) <==> parent.Str? && (parent.s, child) in SUCCESSIONS
  {
    assert TX_PLAN != SNAPSHOT && SIGNED_TX != SNAPSHOT && TX_RECEIPT != SNAPSHOT;
    assert SIGNED_TX != TX_PLAN && TX_RECEIPT != TX_PLAN && TX_RECEIPT != SIGNED_TX;
    assert TX_SUBMISSION != SNAPSHOT && TX_SUBMISSION != TX_PLAN && TX_SUBMISSION != SIGNED_TX
           && TX_SUBMISSION != TX_RECEIPT;
  }

  lemma SameBaseExact(above: Value, child: Value)
    ensures Base(above) != [] && Base(above) == Base(child) <==>
              exists b :: b != "" && Versions(above, b) && Versions(child, b)
  {
    hide Base, Versions;
    if Base(above) != [] && Base(above) == Base(child) {
      BaseExact(above, Base(above));
      BaseExact(child, Base(above));
    }
    if b :| b != "" && Versions(above, b) && Versions(child, b) {
      BaseExact(above, b);
      BaseExact(child, b);
    }
  }

  /**
   * A child may follow its parent exactly when the parent is the receipt of a migration to its schema, or it is the
   * receipt of one from the parent's, or, with no receipt on either side, the pair is one of the successions, or both
   * are spellings of one schema.
   */
  lemma TransitionsExact(a: Value, parent: Value)
    ensures var child, above, receipt := Member(a, "schema"), Member(parent, "schema"), Str(MIGRATION_RECEIPT);
            ValidTransition(a, parent) <==>
              || (above == receipt && StrictEqual(Member(parent, "toSchema"), child))
              || (above != receipt && child == receipt && StrictEqual(Member(a, "fromSchema"), above))
              || (above != receipt && child != receipt && above.Str? && child.Str? && (above.s, child.s) in SUCCESSIONS)
              || (exists b :: b != "" && Versions(above, b) && Versions(child, b))
  {
    hide Member, AllowedBelow, SUCCESSIONS, Base, Versions, MIGRATION_RECEIPT, StrictEqual;
    var child, above := Member(a, "schema"), Member(parent, "schema");
    if child.Str? && child != Str(MIGRATION_RECEIPT) { AllowedExact(above, child.s); }
    SameBaseExact(above, child);
  }

  // ----- what is wrong with a link

  /** The lineage and root ids a child of this block carries: a root's children name the root itself. */
  function ExpectedLine(p: Value): (r: Value)
  {
    if Nullish(LineId(p)) then Own(p) else LineId(p)
  }

  function ExpectedRoot(p: Value): (r: Value)
  {
    if Nullish(RootId(p)) then Own(p) else RootId(p)
  }

  /** Both blocks declare a sequence and the child's does not exceed the parent's. */
  predicate NotRising(l: Value, p: Value, ar: Arithmetic)
  {
    !Sequence(l).Undefined? && !Sequence(p).Undefined? && ar.lessEqual(Sequence(l), Sequence(p))
  }

  predicate NoErrors(issues: seq<Issue>)
  {
    forall x :: x in issues ==> x.severity != Error
  }

  /** addIssue, when its rule is broken. */
  function Note(issues: seq<Issue>, broken: bool, x: Issue): (r: seq<Issue>)
    ensures NoErrors(r) <==> NoErrors(issues) && !(broken && x.severity == Error)
  {
    if broken then
      assert forall y :: y in issues + [x] <==> y in issues || y == x;
      issues + [x]
    else issues
  }

  /** What an artifact without a lineage block is told. */
  function AbsenceIssues(a: Value, strict: bool): (r: seq<Issue>)
    ensures NoErrors(r) <==>
              || !strict
              || Member(a, "schema") in [Str(TX_OBSERVATION), Str(SNAPSHOT), Str(SNAPSHOT_V1), Str(WORKFLOW)]
  {
    var schema := Member(a, "schema");
    if schema == Str(TX_OBSERVATION) || schema == Str(SNAPSHOT) || schema == Str(SNAPSHOT_V1)
      || (schema == Str(WORKFLOW) && !strict) then []
    else [Issue(MissingLineage, if strict && schema != Str(WORKFLOW) then Error else Warning)]
  }

  function StructureIssues(a: Value): (r: seq<Issue>)
  {
    var l := LineageOf(a);
    if RootForm(a) then
      var own := Note(Note([], !Truthy(Own(l)), Issue(InvalidStructure, Error)), Truthy(Own(l)) && !IsHash(Own(l)),
                      Issue(InvalidFormat, Error));
      Note(Note(own, !LineId(l).Undefined?, Issue(RootSelfReference, Error)), !RootId(l).Undefined?,
           Issue(RootSelfReference, Error))
    else if !Truthy(Own(l)) || !Truthy(LineId(l)) || !Truthy(RootId(l)) then
      Note([], true, Issue(InvalidStructure, Error))
    else
      var own := Note([], !IsHash(Own(l)), Issue(InvalidFormat, Error));
      var line := Note(own, !IsHash(LineId(l)), Issue(InvalidFormat, Error));
      var root := Note(line, !IsHash(RootId(l)), Issue(InvalidFormat, Error));
      Note(root, Truthy(ParentId(l)) && !IsHash(ParentId(l)), Issue(InvalidFormat, Error))
  }

  predicate Misnamed(a: Value)
  {
    Truthy(Member(a, "contentHash")) && !StrictEqual(Own(LineageOf(a)), Member(a, "contentHash"))
  }

  /** What the two blocks say of each other. */
  function BlockIssues(issues: seq<Issue>, l: Value, p: Value, strict: bool, ar: Arithmetic): (r: seq<Issue>)
  {
    var parent := Note(Note(issues, !Truthy(ParentId(l)), Issue(MissingParentId, Error)),
                       Truthy(ParentId(l)) && !StrictEqual(ParentId(l), Own(p)), Issue(ParentIdMismatch, Error));
    var line := Note(parent, !StrictEqual(LineId(l), ExpectedLine(p)), Issue(LineageIdMismatch, Error));
    var root := Note(line, !StrictEqual(RootId(l), ExpectedRoot(p)), Issue(RootIdMismatch, Error));
    Note(root, NotRising(l, p, ar), Issue(NonMonotonicSequence, if strict then Error else Warning))
  }

  function ContinuityIssues(issues: seq<Issue>, a: Value, parent: Value, strict: bool, ar: Arithmetic): (r: seq<Issue>)
  {
    var l, p := LineageOf(a), LineageOf(parent);
    var blocks := if Truthy(p) then BlockIssues(issues, l, p, strict, ar)
      else Note(issues, true, Issue(ParentMissingLineage, Error));
    var network := Note(blocks, !StrictEqual(Member(a, "networkId"), Member(parent, "networkId")),
                        Issue(NetworkMismatch, Error));
    var mode := Note(network, !StrictEqual(Member(a, "mode"), Member(parent, "mode")), Issue(ModeMismatch, Error));
    var self := Note(mode, StrictEqual(Own(l), ParentId(l)), Issue(SelfParent, Error));
    Note(self, !ValidTransition(a, parent), Issue(InvalidTransition, Error))
  }

  /** Everything the verifier has to say of an artifact and, when one is given, its parent. */
  function LineageIssues(a: Value, parent: Value, strict: bool, ar: Arithmetic): (r: seq<Issue>)
  {
    if !Truthy(LineageOf(a)) then AbsenceIssues(a, strict)
    else
      var alone := Note(StructureIssues(a), Misnamed(a), Issue(IdentityMismatch, Error));
      if Truthy(parent) then ContinuityIssues(alone, a, parent, strict, ar) else alone
  }

  // ----- the verifier

  method CheckStructure(a: Value) returns (issues: seq<Issue>)
    ensures issues == StructureIssues(a)
  {
    hide Truthy, IsHash, Own, LineId, RootId, ParentId, RootForm;
    issues := [];
    var l := LineageOf(a);
    if RootForm(a) {
      if !Truthy(Own(l)) { issues := issues + [Issue(InvalidStructure, Error)]; }
      else if !IsHash(Own(l)) { issues := issues + [Issue(InvalidFormat, Error)]; }
      if !LineId(l).Undefined? { issues := issues + [Issue(RootSelfReference, Error)]; }
      if !RootId(l).Undefined? { issues := issues + [Issue(RootSelfReference, Error)]; }
    } else if !Truthy(Own(l)) || !Truthy(LineId(l)) || !Truthy(RootId(l)) {
      issues := issues + [Issue(InvalidStructure, Error)];
    } else {
      if !IsHash(Own(l)) { issues := issues + [Issue(InvalidFormat, Error)]; }
      if !IsHash(LineId(l)) { issues := issues + [Issue(InvalidFormat, Error)]; }
      if !IsHash(RootId(l)) { issues := issues + [Issue(InvalidFormat, Error)]; }
      if Truthy(ParentId(l)) && !IsHash(ParentId(l)) { issues := issues + [Issue(InvalidFormat, Error)]; }
    }
  }

  method CheckContinuity(before: seq<Issue>, a: Value, parent: Value, strict: bool, ar: Arithmetic)
    returns (issues: seq<Issue>)
    ensures issues == ContinuityIssues(before, a, parent, strict, ar)
  {
    hide Truthy, StrictEqual, BlockIssues, ValidTransition, Member, LineageOf, Own, ParentId, Note;
    var l, p := LineageOf(a), LineageOf(parent);
    if Truthy(p) { issues := BlockIssues(before, l, p, strict, ar); }
    else { issues := Note(before, true, Issue(ParentMissingLineage, Error)); }
    issues := Note(issues, !StrictEqual(Member(a, "networkId"), Member(parent, "networkId")),
                   Issue(NetworkMismatch, Error));
    issues := Note(issues, !StrictEqual(Member(a, "mode"), Member(parent, "mode")), Issue(ModeMismatch, Error));
    issues := Note(issues, StrictEqual(Own(l), ParentId(l)), Issue(SelfParent, Error));
    issues := Note(issues, !ValidTransition(a, parent), Issue(InvalidTransition, Error));
  }

  /** An artifact without a lineage block. */
  method CheckAbsence(a: Value, strict: bool) returns (issues: seq<Issue>)
    ensures issues == AbsenceIssues(a, strict)
  {
    hide Member;
    var schema := Member(a, "schema");
    var isWorkflow := schema == Str(WORKFLOW);
    var isSnapshot := schema == Str(SNAPSHOT) || schema == Str(SNAPSHOT_V1);
    if schema == Str(TX_OBSERVATION) { return []; }
    var severity := if strict && !isWorkflow && !isSnapshot then Error else Warning;
    issues := [];
    if ((!isWorkflow && !isSnapshot) || strict) && (severity == Error || !isSnapshot) {
      issues := issues + [Issue(MissingLineage, severity)];
    }
  }

  /** verifyLineage. */
  method VerifyLineage(a: Value, parent: Value, strict: bool, ar: Arithmetic) returns (ok: bool, issues: seq<Issue>)
    ensures issues == LineageIssues(a, parent, strict, ar)
    ensures ok <==> LinkHolds(a, parent, strict, ar)
    ensures Truthy(LineageOf(a)) && Truthy(parent) ==>
              (ok <==> if strict then Linked(a, parent, ar) else Joined(a, parent))
    ensures Truthy(LineageOf(a)) && !Truthy(parent) ==> (ok <==> StandsAlone(a))
  {
    hide Truthy, StructureIssues, ContinuityIssues, AbsenceIssues, Misnamed, NoErrors, LineageOf, Linked, Joined,
         StandsAlone;
    if !Truthy(LineageOf(a)) {
      issues := CheckAbsence(a, strict);
    } else {
      issues := CheckStructure(a);
      if Misnamed(a) { issues := issues + [Issue(IdentityMismatch, Error)]; }
      if Truthy(parent) { issues := CheckContinuity(issues, a, parent, strict, ar); }
      if Truthy(parent) { LinkHoldsExact(a, parent, ar); } else { AloneHoldsExact(a, parent, strict, ar); }
    }
    ok := NoErrors(issues);
  }

  /** Nothing is wrong with the artifact and its parent but, at most, warnings. */
  predicate LinkHolds(a: Value, parent: Value, strict: bool, ar: Arithmetic)
  {
    NoErrors(LineageIssues(a, parent, strict, ar))
  }

  // ----- what a link that holds says

  /** What an artifact with a lineage block says of itself, whatever its parent. */
  predicate StandsAlone(a: Value)
  {
    WellShaped(a) && (Truthy(Member(a, "contentHash")) ==> Member(a, "contentHash") == Own(LineageOf(a)))
  }

  /** The facts of a link from an artifact with a lineage block to its parent, but for their sequences. */
  predicate Joined(a: Value, parent: Value)
  {
    var l, p := LineageOf(a), LineageOf(parent);
    && Truthy(p)
    && IsHash(ParentId(l)) && ParentId(l) == Own(p) && Own(l) != ParentId(l)
    && IsHash(Own(l)) && IsHash(LineId(l)) && IsHash(RootId(l))
    && LineId(l) == (if LineId(p) in [Undefined, Null] then Own(p) else LineId(p))
    && RootId(l) == (if RootId(p) in [Undefined, Null] then Own(p) else RootId(p))
    && (Truthy(Member(a, "contentHash")) ==> Member(a, "contentHash") == Own(l))
    && StrictEqual(Member(a, "networkId"), Member(parent, "networkId"))
    && StrictEqual(Member(a, "mode"), Member(parent, "mode"))
    && ValidTransition(a, parent)
  }

  /** The facts of a strict link. */
  predicate Linked(a: Value, parent: Value, ar: Arithmetic)
  {
    Joined(a, parent) && !NotRising(LineageOf(a), LineageOf(parent), ar)
  }

  lemma HashesAreTruthy(v: Value)
    ensures IsHash(v) ==> Truthy(v) && v.Str?
  {
  }

  /** The ids of a block have the form its kind asks for. */
  predicate WellShaped(a: Value)
  {
    var l := LineageOf(a);
    IsHash(Own(l)) &&
    if Member(a, "hashVersion") == Num("5") && !Truthy(ParentId(l)) then LineId(l).Undefined? && RootId(l).Undefined?
    else IsHash(LineId(l)) && IsHash(RootId(l)) && (Truthy(ParentId(l)) ==> IsHash(ParentId(l)))
  }

  lemma StructureExact(a: Value)
    ensures NoErrors(StructureIssues(a)) <==> WellShaped(a)
  {
    hide Truthy, IsHash, Member, NoErrors, Note, LineageOf, Own, LineId, RootId, ParentId, DeclaredVersion;
    assert NoErrors([]) by { NothingWrong(); }
    var l := LineageOf(a);
    DeclaresFiveExactly(a);
    HashesAreTruthy(Own(l));
    HashesAreTruthy(LineId(l));
    HashesAreTruthy(RootId(l));
  }

  /** What the two blocks must say of each other. */
  predicate BlocksAgree(l: Value, p: Value, strict: bool, ar: Arithmetic)
  {
    && Truthy(ParentId(l)) && StrictEqual(ParentId(l), Own(p))
    && StrictEqual(LineId(l), ExpectedLine(p)) && StrictEqual(RootId(l), ExpectedRoot(p))
    && (strict ==> !NotRising(l, p, ar))
  }

  lemma BlocksExact(issues: seq<Issue>, l: Value, p: Value, strict: bool, ar: Arithmetic)
    ensures NoErrors(BlockIssues(issues, l, p, strict, ar)) <==> NoErrors(issues) && BlocksAgree(l, p, strict, ar)
  {
    hide Truthy, StrictEqual, ExpectedLine, ExpectedRoot, NotRising, NoErrors, Note, Own, LineId, RootId, ParentId;
  }

  lemma ContinuityExact(issues: seq<Issue>, a: Value, parent: Value, strict: bool, ar: Arithmetic)
    ensures NoErrors(ContinuityIssues(issues, a, parent, strict, ar)) <==>
              && NoErrors(issues)
              && Truthy(LineageOf(parent)) && BlocksAgree(LineageOf(a), LineageOf(parent), strict, ar)
              && StrictEqual(Member(a, "networkId"), Member(parent, "networkId"))
              && StrictEqual(Member(a, "mode"), Member(parent, "mode"))
              && !StrictEqual(Own(LineageOf(a)), ParentId(LineageOf(a)))
              && ValidTransition(a, parent)
  {
    hide Truthy, StrictEqual, NoErrors, Note, Own, ParentId, BlockIssues, BlocksAgree, Member, LineageOf,
         ValidTransition;
    BlocksExact(issues, LineageOf(a), LineageOf(parent), strict, ar);
  }

  lemma ExpectedIds(p: Value)
    ensures ExpectedLine(p) == if LineId(p) in [Undefined, Null] then Own(p) else LineId(p)
    ensures ExpectedRoot(p) == if RootId(p) in [Undefined, Null] then Own(p) else RootId(p)
  {
    hide LineId, RootId, Own;
  }

  lemma LinkHoldsAs(a: Value, parent: Value, strict: bool, ar: Arithmetic)
    requires Truthy(LineageOf(a)) && Truthy(parent)
    ensures LinkHolds(a, parent, strict, ar) <==>
              Joined(a, parent) && (strict ==> !NotRising(LineageOf(a), LineageOf(parent), ar))
  {
    hide Truthy, IsHash, ValidTransition, Member, ExpectedLine, ExpectedRoot, NotRising, NoErrors, Note, LineageOf,
         Own, LineId, RootId, ParentId, StructureIssues, ContinuityIssues;
    StructureExact(a);
    ExpectedIds(LineageOf(parent));
    ContinuityExact(Note(StructureIssues(a), Misnamed(a), Issue(IdentityMismatch, Error)), a, parent, strict, ar);
    var l := LineageOf(a);
    HashesAreTruthy(ParentId(l));
    HashesAreTruthy(Own(l));
    HashesAreTruthy(LineId(l));
    HashesAreTruthy(RootId(l));
  }

  /** The verifier's rules for a link are these facts, in both directions; only a strict one asks for rising. */
  lemma LinkHoldsExact(a: Value, parent: Value, ar: Arithmetic)
    requires Truthy(LineageOf(a)) && Truthy(parent)
    ensures LinkHolds(a, parent, true, ar) <==> Linked(a, parent, ar)
    ensures LinkHolds(a, parent, false, ar) <==> Joined(a, parent)
  {
    hide LinkHolds, Truthy, Joined, NotRising, LineageOf;
    LinkHoldsAs(a, parent, true, ar);
    LinkHoldsAs(a, parent, false, ar);
  }

  /**
   * Alone, strictly or not, an artifact with a lineage block passes exactly when it stands: a version-5 root by its own
   * id and nothing else, any other by three hashes and, if it names one, its parent's.
   */
  lemma AloneHoldsExact(a: Value, parent: Value, strict: bool, ar: Arithmetic)
    requires Truthy(LineageOf(a)) && !Truthy(parent)
    ensures LinkHolds(a, parent, strict, ar) <==> StandsAlone(a)
  {
    hide Truthy, IsHash, Member, NoErrors, Note, LineageOf, Own, LineId, RootId, ParentId, StructureIssues;
    StructureExact(a);
    HashesAreTruthy(Own(LineageOf(a)));
  }

  lemma DeclaresFiveExactly(a: Value)
    ensures DeclaredVersion(a) == Some(5) <==> Member(a, "hashVersion") == Num("5")
  {
    hide Member;
  }

  /** Without a lineage block, only a strict check of an artifact that should have one fails. */
  lemma AbsentHoldsExact(a: Value, parent: Value, strict: bool, ar: Arithmetic)
    requires !Truthy(LineageOf(a))
    ensures LinkHolds(a, parent, strict, ar) <==>
              || !strict
              || Member(a, "schema") in [Str("hardkas.txObservation.v1"), Str("hardkas.snapshot"),
                                         Str("hardkas.snapshot.v1"), Str("hardkas.workflow.v1")]
  {
    hide Member, Truthy;
  }

  /** A link that holds, strictly or not, is from an artifact that stands. */
  lemma JoinedStands(a: Value, parent: Value)
    requires Joined(a, parent)
    ensures StandsAlone(a)
  {
    hide IsHash, Member, LineageOf, Own, LineId, RootId, ParentId, ValidTransition, ExpectedLine, ExpectedRoot, Truthy;
    HashesAreTruthy(ParentId(LineageOf(a)));
  }

  lemma NothingWrong()
    ensures NoErrors([])
  {
  }

  // ----- the block a producer stamps

  /** `a || b`. */
  function Or(a: Value, b: Value): (r: Value)
  {
    if Truthy(a) then a else b
  }

  function Zeros(n: nat): (r: string)
    ensures |r| == n && forall i :: 0 <= i < n ==> r[i] == '0'
  {
    seq(n, _ => '0')
  }

  /** How a producer names its parent. */
  function ParentName(parent: Value): (r: Value)
  {
    Or(Member(parent, "contentHash"),
       Or(Member(parent, "artifactId"), Or(Member(parent, "planId"), Or(Member(parent, "signedId"), Str(Zeros(64))))))
  }

  /** createLineageTransition, with the child's own identity once it is known. */
  function CreateLineageTransition(parent: Value, own: string, ar: Arithmetic): (r: Value)
  {
    var p := LineageOf(parent);
    Obj([Pair("artifactId", Str(own)),
         Pair("lineageId", Or(LineId(p), ParentName(parent))),
         Pair("parentArtifactId", ParentName(parent)),
         Pair("rootArtifactId", Or(RootId(p), ParentName(parent))),
         Pair("sequence", ar.addOne(Or(Sequence(p), Num("0"))))])
  }

  /** The first of the values that counts as true, or the other when none does. */
  ghost predicate FirstTruthy(vs: seq<Value>, name: Value, other: Value)
  {
    || (exists i :: 0 <= i < |vs| && name == vs[i] && Truthy(name) && forall j :: 0 <= j < i ==> !Truthy(vs[j]))
    || (name == other && forall j :: 0 <= j < |vs| ==> !Truthy(vs[j]))
  }

  lemma OrChain(a: Value, b: Value, c: Value, d: Value, z: Value)
    ensures FirstTruthy([a, b, c, d], Or(a, Or(b, Or(c, Or(d, z)))), z)
  {
    hide Truthy;
    var vs := [a, b, c, d];
    assert vs[0] == a && vs[1] == b && vs[2] == c && vs[3] == d;
  }

  /**
   * A block names as its parent the first of the parent's contentHash, artifactId, planId and signedId that has a
   * value, or sixty-four zeros when none has; as line and root those of the parent's block, or else that name.
   */
  lemma ParentNamed(parent: Value, own: string, ar: Arithmetic)
    ensures var l, p := CreateLineageTransition(parent, own, ar), LineageOf(parent);
            && FirstTruthy([Member(parent, "contentHash"), Member(parent, "artifactId"), Member(parent, "planId"),
                            Member(parent, "signedId")], ParentId(l), Str(seq(64, _ => '0')))
            && LineId(l) == (if Truthy(LineId(p)) then LineId(p) else ParentId(l))
            && RootId(l) == (if Truthy(RootId(p)) then RootId(p) else ParentId(l))
            && Sequence(l) == ar.addOne(if Truthy(Sequence(p)) then Sequence(p) else Num("0"))
            && Own(l) == Str(own)
  {
    hide Truthy, FirstTruthy, Member, Own, LineId, RootId, ParentId, Sequence, LineageOf, CreateLineageTransition;
    BlockParent(parent, own, ar);
    assert Zeros(64) == seq(64, _ => '0');
    OrChain(Member(parent, "contentHash"), Member(parent, "artifactId"), Member(parent, "planId"),
            Member(parent, "signedId"), Str(Zeros(64)));
  }

  lemma BlockParent(parent: Value, own: string, ar: Arithmetic)
    ensures var l := CreateLineageTransition(parent, own, ar);
            && ParentId(l) == ParentName(parent) && Own(l) == Str(own)
            && LineId(l) == Or(LineId(LineageOf(parent)), ParentName(parent))
            && RootId(l) == Or(RootId(LineageOf(parent)), ParentName(parent))
            && Sequence(l) == ar.addOne(Or(Sequence(LineageOf(parent)), Num("0")))
  {
    hide Truthy, ParentName, Or, Lookup;
    var fs := CreateLineageTransition(parent, own, ar).fields;
    assert "artifactId" != "lineageId" && "artifactId" != "parentArtifactId" && "artifactId" != "rootArtifactId"
           && "artifactId" != "sequence" && "lineageId" != "parentArtifactId" && "lineageId" != "rootArtifactId"
           && "lineageId" != "sequence" && "parentArtifactId" != "rootArtifactId" && "parentArtifactId" != "sequence"
           && "rootArtifactId" != "sequence" by {
      assert |"artifactId"| == 10 && |"lineageId"| == 9 && |"parentArtifactId"| == 16 && |"rootArtifactId"| == 14
             && |"sequence"| == 8;
    }
    LookupAt(fs, 0);
    LookupAt(fs, 1);
    LookupAt(fs, 2);
    LookupAt(fs, 3);
    LookupAt(fs, 4);
  }
}
