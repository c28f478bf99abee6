// The report of a build, rebuilt row by row, and its agreement with the decision of the
// controller (experimental_modeling/verification.py:23-94).
module VerdictReports {
  import opened Options
  import opened Verdicts

  // ---- The rows and the result (verification_v1.py:22-71, requirements.py:292-313,
  // controller.py:373-416) ----

  datatype Status = Pass | Fail | Unknown

  datatype RowId = Job(name: string) | ParentReference | Provenance | Overall | OfConstraint(index: nat)
                 | Preserved(part: string) | OfRequirement(id: string)

  datatype Row = Row(id: RowId, hard: bool, applicable: bool, status: Status)

  datatype BuildStatus = Accepted | Rejected | NeedsReview

  // What result.json says when the report is made.
  datatype Result = Result(status: BuildStatus, parent: Option<string>, parentHash: Option<string>,
                           jobs: map<string, int>, provenance: bool)

  const JOBS := ["author", "inspect", "roundtrip", "reopen"]

  function Hard(id: RowId, status: Status): Row { Row(id, true, true, status) }

  // ---- Version 1 ----

  predicate CleanV1(m: Measures, policy: Policy, parts: Parts, previous: Option<Parts>) {
    && (forall n :: n in parts && Protected(policy, previous, n) ==> PartUnchanged(parts, previous.value, n))
    && forall c :: c in policy.constraints ==> Measured(m, c, parts, previous) == Some(true)
  }

  function VerdictV1(m: Measures, policy: Policy, parts: Parts, previous: Option<Parts>): Status {
    if Early(policy, parts, previous).Some? then Fail
    else if !Checkable(m, policy, parts, previous) then Unknown
    else if CleanV1(m, policy, parts, previous) then Pass
    else Fail
  }

  function StatusOf(check: Check): Status {
    if check.Raised? then Unknown else if check.found == [] then Pass else Fail
  }

  lemma CheckV1Verdict(m: Measures, policy: Policy, parts: Parts, previous: Option<Parts>, check: Check)
    requires IsCheckV1(m, policy, parts, previous, check)
    ensures StatusOf(check) == VerdictV1(m, policy, parts, previous)
  {
    if Early(policy, parts, previous).None? && Checkable(m, policy, parts, previous) {
      CompletedVerdictV1(m, policy, parts, previous, check.found);
    }
  }

  lemma PassedOrNot(measured: Option<bool>)
    ensures measured == None || measured == Some(true) || measured == Some(false)
  {
    if measured.Some? {
      assert measured.value == true || measured.value == false;
    }
  }

  // A completed check lists nothing exactly when nothing fails.
  lemma CompletedVerdictV1(m: Measures, policy: Policy, parts: Parts, previous: Option<Parts>, found: seq<Failure>)
    requires Checkable(m, policy, parts, previous)
    requires forall f :: f in found <==> Fails(m, policy, parts, previous, f)
    ensures found == [] <==> CleanV1(m, policy, parts, previous)
  {
    if found == [] {
      forall n, k | n in parts && Protected(policy, previous, n) && k in KEYS
        ensures SameHash(parts, previous.value, n, k)
      {
        assert !Fails(m, policy, parts, previous, Unchanged(n, k));
      }
      forall c | c in policy.constraints ensures Measured(m, c, parts, previous) == Some(true) {
        assert !Fails(m, policy, parts, previous, Broken(c));
        PassedOrNot(Measured(m, c, parts, previous));
      }
    } else {
      assert found[0] in found;
    }
  }

  // `replace(policy, changed_parts=policy.parts, constraints=(constraint,))`
  function Isolated(policy: Policy, c: Constraint): Policy {
    policy.(changed := Names(policy), constraints := [c])
  }

  function GetHash(parts: Parts, name: string, key: Key): Option<string> {
    if name in parts && key in parts[name].hashes then Some(parts[name].hashes[key]) else None
  }

  // `.get` on both sides, so two absent hashes are equal here.
  predicate PreservedV1(parts: Parts, previous: Parts, name: string) {
    name in previous && forall k :: k in KEYS ==> GetHash(parts, name, k) == GetHash(previous, name, k)
  }

  function PreservedStatusV1(observed: Option<Parts>, previous: Parts, name: string): Status {
    if observed.None? then Unknown else if PreservedV1(observed.value, previous, name) then Pass else Fail
  }

  // A hash of a protected part that neither side has: the whole check raises on it.
  predicate HashMissing(parts: Parts, previous: Parts, name: string) {
    exists k :: k in KEYS && GetHash(parts, name, k).None? && GetHash(previous, name, k).None?
  }

  // What the rows do not cover: vertices when there is no constraint, and hashes nobody has.
  predicate RowsCover(policy: Policy, parts: Parts, previous: Option<Parts>) {
    && (policy.constraints == [] ==> forall n :: n in parts ==> parts[n].wellFormed)
    && forall n :: n in policy.parts && Protected(policy, previous, n) ==> !HashMissing(parts, previous.value, n)
  }

  predicate AllIsolatedPass(m: Measures, policy: Policy, parts: Parts, previous: Option<Parts>) {
    forall c :: c in policy.constraints ==> VerdictV1(m, Isolated(policy, c), parts, previous) == Pass
  }

  predicate AllPreservedV1(policy: Policy, parts: Parts, previous: Option<Parts>) {
    forall n :: n in policy.parts && Protected(policy, previous, n) ==> PreservedV1(parts, previous.value, n)
  }

  lemma IsolatedVerdict(m: Measures, policy: Policy, c: Constraint, parts: Parts, previous: Option<Parts>)
    requires Early(policy, parts, previous).None?
    ensures VerdictV1(m, Isolated(policy, c), parts, previous) == Pass
        <==> (forall n :: n in parts ==> parts[n].wellFormed) && Measured(m, c, parts, previous) == Some(true)
  {
    var isolated := Isolated(policy, c);
    assert Names(isolated) == Names(policy) == parts.Keys;
    assert Early(isolated, parts, previous).None?;
    assert forall n :: n in parts ==> !Protected(isolated, previous, n);
    assert forall n :: n in parts ==> (PartCheckable(isolated, parts, previous, n) <==> parts[n].wellFormed);
    assert isolated.constraints == [c];
  }

  lemma PreservedMeansUnchanged(policy: Policy, parts: Parts, previous: Parts, n: string)
    requires n in parts && n in previous
    ensures PreservedV1(parts, previous, n) && !HashMissing(parts, previous, n)
        <==> HasKeys(parts[n]) && HasKeys(previous[n]) && PartUnchanged(parts, previous, n)
  {
    if PreservedV1(parts, previous, n) && !HashMissing(parts, previous, n) {
      forall k | k in KEYS ensures SameHash(parts, previous, n, k) {
        assert GetHash(parts, n, k) == GetHash(previous, n, k);
      }
    }
  }

  // With a matching inventory the whole check is empty exactly when every isolated row and every
  // preserved row passes, provided the rows cover what it reads.
  lemma RowsDecideV1(m: Measures, policy: Policy, parts: Parts, previous: Option<Parts>)
    requires Early(policy, parts, previous).None?
    ensures VerdictV1(m, policy, parts, previous) == Pass
        <==> AllIsolatedPass(m, policy, parts, previous) && AllPreservedV1(policy, parts, previous)
             && RowsCover(policy, parts, previous)
  {
    forall c | c in policy.constraints
      ensures VerdictV1(m, Isolated(policy, c), parts, previous) == Pass
          <==> (forall n :: n in parts ==> parts[n].wellFormed) && Measured(m, c, parts, previous) == Some(true)
    {
      IsolatedVerdict(m, policy, c, parts, previous);
    }
    assert policy.constraints != [] ==> policy.constraints[0] in policy.constraints;
    forall n | n in parts && Protected(policy, previous, n)
      ensures n in policy.parts && n in previous.value
      ensures PreservedV1(parts, previous.value, n) && !HashMissing(parts, previous.value, n)
          <==> HasKeys(parts[n]) && HasKeys(previous.value[n]) && PartUnchanged(parts, previous.value, n)
    {
      ProtectedIsOld(policy, parts, previous, n);
      PreservedMeansUnchanged(policy, parts, previous.value, n);
    }
    assert forall n :: n in policy.parts <==> n in parts;
  }

  lemma ProtectedIsOld(policy: Policy, parts: Parts, previous: Option<Parts>, n: string)
    requires Early(policy, parts, previous).None? && n in parts && Protected(policy, previous, n)
    ensures n in Names(policy) && n in previous.value
  {
    var unscoped := parts.Keys - previous.value.Keys - policy.changed;
    assert unscoped == {};
    assert n in unscoped || n in previous.value;
  }

  // The rows pass and the whole check raises: a protected part without hashes on either side.
  lemma MissingHashIsNotInRows(m: Measures)
    ensures var policy := Policy(1, ["p"], {}, []);
            var parts: Parts := map["p" := Part(true, map[], "")];
            && Early(policy, parts, Some(parts)).None?
            && AllIsolatedPass(m, policy, parts, Some(parts)) && AllPreservedV1(policy, parts, Some(parts))
            && VerdictV1(m, policy, parts, Some(parts)) == Unknown
  {
    var policy := Policy(1, ["p"], {}, []);
    var parts: Parts := map["p" := Part(true, map[], "")];
    assert Names(policy) == {"p"};
    assert KEYS[0] in KEYS && !HasKeys(parts["p"]);
    assert !PartCheckable(policy, parts, Some(parts), "p");
  }

  // The same with no constraint and a part without usable vertices.
  lemma BadVerticesAreNotInRows(m: Measures)
    ensures var policy := Policy(1, ["p"], {}, []);
            var parts: Parts := map["p" := Part(false, map[], "")];
            && Early(policy, parts, None).None?
            && AllIsolatedPass(m, policy, parts, None) && AllPreservedV1(policy, parts, None)
            && VerdictV1(m, policy, parts, None) == Unknown
  {
    var policy := Policy(1, ["p"], {}, []);
    var parts: Parts := map["p" := Part(false, map[], "")];
    assert Names(policy) == {"p"};
    assert !PartCheckable(policy, parts, None, "p");
  }

  // ---- Version 2 ----

  predicate CleanV2(m: Measures, policy: Policy, parts: Parts, previous: Option<Parts>) {
    && (forall n :: n in parts && Protected(policy, previous, n) ==> PartUnchanged(parts, previous.value, n))
    && forall c :: c in policy.constraints ==> MeasuredV2(m, c, parts, previous) == Some(true)
  }

  function VerdictV2(m: Measures, policy: Policy, observation: Observation, previous: Option<Observation>): Status {
    var parts, before := observation.parts, PartsOf(previous);
    if !VersionsOk(observation, previous) then Unknown
    else if Early(policy, parts, before).Some? then Fail
    else if !CheckableV2(m, policy, observation, previous) then Unknown
    else if CleanV2(m, policy, parts, before) then Pass
    else Fail
  }

  lemma CheckV2Verdict(m: Measures, policy: Policy, observation: Observation, previous: Option<Observation>,
                       check: Check)
    requires IsCheckV2(m, policy, observation, previous, check)
    ensures StatusOf(check) == VerdictV2(m, policy, observation, previous)
  {
    if VersionsOk(observation, previous) && Early(policy, observation.parts, PartsOf(previous)).None?
       && CheckableV2(m, policy, observation, previous)
    {
      CompletedVerdictV2(m, policy, observation.parts, PartsOf(previous), check.found);
    }
  }

  lemma CompletedVerdictV2(m: Measures, policy: Policy, parts: Parts, previous: Option<Parts>, found: seq<Failure>)
    requires forall c :: c in policy.constraints ==> MeasuredV2(m, c, parts, previous).Some?
    requires forall f :: f in found <==>
               HashFails(policy, parts, previous, f) || BrokenV2(m, policy.constraints, parts, previous, f)
    ensures found == [] <==> CleanV2(m, policy, parts, previous)
  {
    if found == [] {
      forall n, k | n in parts && Protected(policy, previous, n) && k in KEYS
        ensures SameHash(parts, previous.value, n, k)
      {
        assert !HashFails(policy, parts, previous, Unchanged(n, k));
      }
      forall c | c in policy.constraints ensures MeasuredV2(m, c, parts, previous) == Some(true) {
        assert !BrokenV2(m, policy.constraints, parts, previous, Broken(c));
        PassedOrNot(MeasuredV2(m, c, parts, previous));
      }
    } else {
      assert found[0] in found;
    }
  }

  // ---- What a clean check says of the evidence ----

  // The observed parts are those of the policy, none was removed, and a new one was announced.
  ghost predicate InventoryHolds(policy: Policy, parts: Parts, previous: Option<Parts>) {
    && (forall n :: n in parts <==> n in policy.parts)
    && (previous.Some? ==> forall n :: n in previous.value ==> n in parts)
    && (previous.Some? ==> forall n :: n in parts && n !in previous.value ==> n in policy.changed)
  }

  // Every hash is there on both sides, and equal.
  ghost predicate SameHashes(p: Part, q: Part) {
    forall k: Key :: k in p.hashes && k in q.hashes && p.hashes[k] == q.hashes[k]
  }

  // A part that must not change was there, with the same hashes.
  ghost predicate HashesHold(policy: Policy, parts: Parts, previous: Option<Parts>) {
    previous.Some? ==> forall n :: n in parts && n !in policy.changed ==>
      n in previous.value && SameHashes(parts[n], previous.value[n])
  }

  predicate ConstraintHolds(m: Measures, c: Constraint, parts: Parts, previous: Option<Parts>) {
    && c.part in parts
    && m.constraint(c, parts[c.part], if previous.Some? && c.part in previous.value then Some(previous.value[c.part]) else None)
       == Some(true)
  }

  predicate TranslationHolds(m: Measures, c: Constraint, parts: Parts, previous: Option<Parts>) {
    && c.part in parts && previous.Some? && c.part in previous.value
    && m.translated(c, parts[c.part], previous.value[c.part])
  }

  ghost predicate HoldsV1(m: Measures, policy: Policy, parts: Parts, previous: Option<Parts>) {
    && InventoryHolds(policy, parts, previous) && HashesHold(policy, parts, previous)
    && (forall n :: n in parts ==> parts[n].wellFormed)
    && forall c :: c in policy.constraints ==> ConstraintHolds(m, c, parts, previous)
  }

  // 64 lower-case hexadecimal digits
  predicate IsSha256(h: string) { |h| == 64 && forall i :: 0 <= i < 64 ==> h[i] in "0123456789abcdef" }

  ghost predicate HoldsV2(m: Measures, policy: Policy, observation: Observation, previous: Option<Observation>) {
    var parts, before := observation.parts, PartsOf(previous);
    && observation.version == 2 && (previous.Some? ==> previous.value.version == 2)
    && InventoryHolds(policy, parts, before) && HashesHold(policy, parts, before)
    && m.evidence(policy, observation, previous)
    && (forall n :: n in parts ==> parts[n].wellFormed)
    && (before.Some? ==> forall n, k: Key :: n in parts && n !in policy.changed ==> IsSha256(parts[n].hashes[k]))
    && forall c :: c in policy.constraints ==>
         if c.kind == "translated" then TranslationHolds(m, c, parts, before) else ConstraintHolds(m, c, parts, before)
  }

  lemma AllKeys(k: Key)
    ensures k in KEYS
  {
    assert KEYS[0] in KEYS && KEYS[1] in KEYS && KEYS[2] in KEYS;
  }

  lemma InventoryIff(policy: Policy, parts: Parts, previous: Option<Parts>)
    ensures Early(policy, parts, previous).None? <==> InventoryHolds(policy, parts, previous)
  {
    assert parts.Keys == Names(policy) <==> forall n :: n in parts <==> n in policy.parts;
    if previous.Some? {
      NoneLeft(previous.value.Keys, parts.Keys, {});
      NoneLeft(parts.Keys, previous.value.Keys, policy.changed);
      assert previous.value.Keys - parts.Keys - {} == previous.value.Keys - parts.Keys;
    }
  }

  lemma NoneLeft(a: set<string>, b: set<string>, c: set<string>)
    ensures a - b - c == {} <==> forall n :: n in a && n !in b ==> n in c
  {
    if forall n :: n in a && n !in b ==> n in c {
      assert forall n :: n !in a - b - c;
    } else {
      var n :| n in a && n !in b && n !in c;
      assert n in a - b - c;
    }
  }

  lemma UnchangedIff(parts: Parts, previous: Parts, n: string)
    requires n in parts
    ensures HasKeys(parts[n]) && n in previous && HasKeys(previous[n]) && PartUnchanged(parts, previous, n)
       <==> n in previous && SameHashes(parts[n], previous[n])
  {
    if n in previous && PartUnchanged(parts, previous, n) {
      forall k: Key
        ensures k in parts[n].hashes && k in previous[n].hashes && parts[n].hashes[k] == previous[n].hashes[k]
      {
        AllKeys(k);
        assert SameHash(parts, previous, n, k);
      }
    }
  }

  // Checkable and unchanged, part by part.
  lemma HashesIff(policy: Policy, parts: Parts, previous: Option<Parts>)
    ensures (forall n :: n in parts ==> PartCheckable(policy, parts, previous, n))
            && (forall n :: n in parts && Protected(policy, previous, n) ==> PartUnchanged(parts, previous.value, n))
       <==> (forall n :: n in parts ==> parts[n].wellFormed) && HashesHold(policy, parts, previous)
  {
    if previous.Some? {
      forall n | n in parts && n !in policy.changed
        ensures HasKeys(parts[n]) && n in previous.value && HasKeys(previous.value[n])
                && PartUnchanged(parts, previous.value, n)
           <==> n in previous.value && SameHashes(parts[n], previous.value[n])
      {
        UnchangedIff(parts, previous.value, n);
      }
    }
  }

  // The version-1 check is clean if and only if the evidence is.
  lemma CleanIffV1(m: Measures, policy: Policy, parts: Parts, previous: Option<Parts>)
    ensures VerdictV1(m, policy, parts, previous) == Pass <==> HoldsV1(m, policy, parts, previous)
  {
    InventoryIff(policy, parts, previous);
    HashesIff(policy, parts, previous);
  }

  lemma HexIff(c: char)
    ensures IsHex(c) <==> c in "0123456789abcdef"
  {
    var s := "0123456789abcdef";
    assert s[0] == '0' && s[1] == '1' && s[2] == '2' && s[3] == '3' && s[4] == '4' && s[5] == '5' && s[6] == '6'
           && s[7] == '7' && s[8] == '8' && s[9] == '9' && s[10] == 'a' && s[11] == 'b' && s[12] == 'c' && s[13] == 'd'
           && s[14] == 'e' && s[15] == 'f';
  }

  lemma HashIff(h: string)
    ensures ValidHash(h) <==> IsSha256(h)
  {
    forall c ensures IsHex(c) <==> c in "0123456789abcdef" {
      HexIff(c);
    }
    assert forall i :: 0 <= i < |h| ==> h[i] in h;
  }

  lemma ValidIff(p: Part, q: Part)
    requires SameHashes(p, q)
    ensures HashesValid(p) && HashesValid(q) <==> forall k: Key :: IsSha256(p.hashes[k])
  {
    forall h: string ensures ValidHash(h) <==> IsSha256(h) {
      HashIff(h);
    }
    if HashesValid(p) {
      forall k: Key ensures IsSha256(p.hashes[k]) {
        AllKeys(k);
      }
    }
  }

  lemma AllValidIff(policy: Policy, parts: Parts, previous: Option<Parts>)
    requires InventoryHolds(policy, parts, previous) && HashesHold(policy, parts, previous)
    ensures ProtectedHashesValid(policy, parts, previous)
       <==> (previous.Some? ==> forall n, k: Key :: n in parts && n !in policy.changed ==> IsSha256(parts[n].hashes[k]))
  {
    if previous.Some? {
      forall n | n in parts && n !in policy.changed
        ensures HashesValid(parts[n]) && HashesValid(previous.value[n]) <==> forall k: Key :: IsSha256(parts[n].hashes[k])
      {
        ValidIff(parts[n], previous.value[n]);
      }
    }
  }

  // And the version-2 check.
  lemma CleanIffV2(m: Measures, policy: Policy, observation: Observation, previous: Option<Observation>)
    ensures VerdictV2(m, policy, observation, previous) == Pass <==> HoldsV2(m, policy, observation, previous)
  {
    var parts, before := observation.parts, PartsOf(previous);
    InventoryIff(policy, parts, before);
    HashesIff(policy, parts, before);
    if InventoryHolds(policy, parts, before) && HashesHold(policy, parts, before) {
      AllValidIff(policy, parts, before);
    }
    assert forall c :: c in policy.constraints ==>
      (MeasuredV2(m, c, parts, before) == Some(true)
       <==> if c.kind == "translated" then TranslationHolds(m, c, parts, before) else ConstraintHolds(m, c, parts, before));
  }

  // A constraint's row is read off the failures of the one whole check.
  function ConstraintStatusV2(m: Measures, policy: Policy, observation: Observation, previous: Option<Observation>,
                              c: Constraint): Status {
    var parts, before := observation.parts, PartsOf(previous);
    if VerdictV2(m, policy, observation, previous) == Unknown || Early(policy, parts, before).Some? then Unknown
    else if MeasuredV2(m, c, parts, before) == Some(false) then Fail
    else Pass
  }

  function PreservedStatusV2(observed: Option<Parts>, previous: Parts, name: string): Status {
    if observed.Some? && name in observed.value && name in previous
       && HashesValid(observed.value[name]) && HashesValid(previous[name])
    then if PartUnchanged(observed.value, previous, name) then Pass else Fail
    else Unknown
  }

  predicate AllPreservedV2(policy: Policy, parts: Parts, previous: Option<Parts>) {
    forall n :: n in policy.parts && Protected(policy, previous, n)
            ==> PreservedStatusV2(Some(parts), previous.value, n) == Pass
  }

  // When the whole check completes past the inventory, a row passes exactly when its constraint
  // was measured to hold, and the check is empty exactly when all rows pass.
  lemma RowsDecideV2(m: Measures, policy: Policy, observation: Observation, previous: Option<Observation>)
    requires VersionsOk(observation, previous)
    requires Early(policy, observation.parts, PartsOf(previous)).None? && CheckableV2(m, policy, observation, previous)
    ensures forall c :: c in policy.constraints ==>
              && (ConstraintStatusV2(m, policy, observation, previous, c) == Pass
                  <==> MeasuredV2(m, c, observation.parts, PartsOf(previous)) == Some(true))
              && (ConstraintStatusV2(m, policy, observation, previous, c) == Fail
                  <==> MeasuredV2(m, c, observation.parts, PartsOf(previous)) == Some(false))
    ensures VerdictV2(m, policy, observation, previous) == Pass
        <==> (forall c :: c in policy.constraints ==> ConstraintStatusV2(m, policy, observation, previous, c) == Pass)
             && AllPreservedV2(policy, observation.parts, PartsOf(previous))
  {
    var parts, before := observation.parts, PartsOf(previous);
    forall c | c in policy.constraints
      ensures ConstraintStatusV2(m, policy, observation, previous, c) == Pass <==> MeasuredV2(m, c, parts, before) == Some(true)
    {
      PassedOrNot(MeasuredV2(m, c, parts, before));
    }
    assert forall n :: n in policy.parts <==> n in parts;
    forall n | n in parts && Protected(policy, before, n)
      ensures PreservedStatusV2(Some(parts), before.value, n) == Pass <==> PartUnchanged(parts, before.value, n)
    {
      assert n in policy.parts;
    }
  }

  // ---- Rows ----

  function JobRow(result: Result, job: string, observed: bool): Row {
    Hard(Job(job), if job in result.jobs && result.jobs[job] == 0 && (job != "inspect" || observed) then Pass else Unknown)
  }

  function ParentRows(result: Result, known: bool): seq<Row> {
    if result.parent.None? then []
    else [Hard(ParentReference, if known && result.parentHash.Some? && |result.parentHash.value| == 64 then Pass else Unknown)]
  }

  function ProvenanceRow(result: Result): Row { Hard(Provenance, if result.provenance then Pass else Unknown) }

  // One row of `evaluate`.
  function RequirementRow(m: Measures, r: Requirement, observation: Option<Observation>, previous: Option<Observation>,
                          isRevision: bool): Row {
    var applicable := !(r.revisionOnly && !isRevision);
    Row(OfRequirement(r.id), r.hard, applicable,
        if !applicable || observation.None? || (r.revisionOnly && previous.None?) || r.manual then Unknown
        else
          match m.relation(r, observation.value, previous)
          case None => Unknown
          case Some(passed) => if passed then Pass else Fail)
  }

  function RequirementRows(m: Measures, rs: seq<Requirement>, observation: Option<Observation>,
                           previous: Option<Observation>, isRevision: bool): seq<Row> {
    seq(|rs|, i requires 0 <= i < |rs| => RequirementRow(m, rs[i], observation, previous, isRevision))
  }

  function OverallStatus(m: Measures, policy: Policy, observation: Option<Observation>, previous: Option<Observation>): Status {
    if observation.None? then Unknown
    else if policy.version == 1 then VerdictV1(m, policy, observation.value.parts, PartsOf(previous))
    else VerdictV2(m, policy, observation.value, previous)
  }

  function ConstraintStatus(m: Measures, policy: Policy, observation: Option<Observation>, previous: Option<Observation>,
                            c: Constraint): Status {
    if observation.None? then Unknown
    else if policy.version == 1 then VerdictV1(m, Isolated(policy, c), observation.value.parts, PartsOf(previous))
    else ConstraintStatusV2(m, policy, observation.value, previous, c)
  }

  function ConstraintRows(m: Measures, policy: Policy, observation: Option<Observation>, previous: Option<Observation>): seq<Row> {
    seq(|policy.constraints|, i requires 0 <= i < |policy.constraints| =>
      Hard(OfConstraint(i), ConstraintStatus(m, policy, observation, previous, policy.constraints[i])))
  }

  function PreservedStatus(policy: Policy, observation: Option<Observation>, previous: Observation, name: string): Status {
    if policy.version == 1 then PreservedStatusV1(PartsOf(observation), previous.parts, name)
    else PreservedStatusV2(PartsOf(observation), previous.parts, name)
  }

  // One row for each part that must not change, in the order of the policy.
  function PreservedRows(policy: Policy, names: seq<string>, observation: Option<Observation>, previous: Option<Observation>): seq<Row> {
    if names == [] || previous.None? then []
    else
      var last := names[|names| - 1];
      PreservedRows(policy, names[..|names| - 1], observation, previous)
      + if last in policy.changed then [] else [Hard(Preserved(last), PreservedStatus(policy, observation, previous.value, last))]
  }

  function Rows(m: Measures, result: Result, policy: Policy, observation: Option<Observation>,
                previous: Option<Observation>, rs: seq<Requirement>): seq<Row> {
    [JobRow(result, JOBS[0], observation.Some?), JobRow(result, JOBS[1], observation.Some?),
     JobRow(result, JOBS[2], observation.Some?), JobRow(result, JOBS[3], observation.Some?)]
    + ParentRows(result, previous.Some?) + [ProvenanceRow(result)]
    + [Hard(Overall, OverallStatus(m, policy, observation, previous))]
    + ConstraintRows(m, policy, observation, previous)
    + PreservedRows(policy, policy.parts, observation, previous)
    + RequirementRows(m, rs, observation, previous, result.parent.Some?)
  }

  predicate AllPass(rows: seq<Row>) { forall r :: r in rows && r.hard && r.applicable ==> r.status == Pass }

  // machine_verified
  predicate MachineVerified(result: Result, rows: seq<Row>) { result.status == Accepted && AllPass(rows) }

  // ---- `make_report` ----

  predicate Stops(f: Failure) { f.Inventory? || f.Removed? || f.Unscoped? }

  // A constraint's status from the list that the whole version-2 check returned.
  function StatusFromCheck(check: Check, c: Constraint): Status {
    if check.Raised? || (exists f :: f in check.found && Stops(f)) then Unknown
    else if Broken(c) in check.found then Fail
    else Pass
  }

  lemma StatusFromCheckV2(m: Measures, policy: Policy, observation: Observation, previous: Option<Observation>,
                          check: Check, c: Constraint)
    requires IsCheckV2(m, policy, observation, previous, check) && c in policy.constraints
    ensures StatusFromCheck(check, c) == ConstraintStatusV2(m, policy, observation, previous, c)
  {
    CheckV2Verdict(m, policy, observation, previous, check);
    var early := Early(policy, observation.parts, PartsOf(previous));
    if VersionsOk(observation, previous) {
      if early.Some? {
        assert early.value in check.found;
      } else if check.Failures? {
        assert forall f :: f in check.found ==> !Stops(f);
        assert Broken(c) in check.found <==> MeasuredV2(m, c, observation.parts, PartsOf(previous)) == Some(false);
      }
    }
  }

  // `check` of either version.
  method Inspect(m: Measures, policy: Policy, observation: Observation, previous: Option<Observation>) returns (check: Check)
    requires policy.version == 1 || policy.version == 2
    ensures StatusOf(check) == OverallStatus(m, policy, Some(observation), previous)
    ensures policy.version == 2 ==> IsCheckV2(m, policy, observation, previous, check)
  {
    if policy.version == 1 {
      check := CheckV1(m, policy, observation.parts, PartsOf(previous));
      CheckV1Verdict(m, policy, observation.parts, PartsOf(previous), check);
    } else {
      check := CheckV2(m, policy, observation, previous);
      CheckV2Verdict(m, policy, observation, previous, check);
    }
  }

  method ConstraintReport(m: Measures, policy: Policy, observation: Option<Observation>, previous: Option<Observation>)
    returns (overall: Row, rows: seq<Row>)
    requires policy.version == 1 || policy.version == 2
    ensures overall == Hard(Overall, OverallStatus(m, policy, observation, previous))
    ensures rows == ConstraintRows(m, policy, observation, previous)
  {
    var check := Raised;
    if observation.Some? {
      check := Inspect(m, policy, observation.value, previous);
    }
    overall := Hard(Overall, StatusOf(check));
    rows := [];
    for i := 0 to |policy.constraints|
      invariant |rows| == i
      invariant forall j :: 0 <= j < i ==>
                  rows[j] == Hard(OfConstraint(j), ConstraintStatus(m, policy, observation, previous, policy.constraints[j]))
    {
      var c := policy.constraints[i];
      var status := Unknown;
      if observation.Some? {
        if policy.version == 1 {
          var alone := CheckV1(m, Isolated(policy, c), observation.value.parts, PartsOf(previous));
          CheckV1Verdict(m, Isolated(policy, c), observation.value.parts, PartsOf(previous), alone);
          status := StatusOf(alone);
        } else {
          StatusFromCheckV2(m, policy, observation.value, previous, check, c);
          status := StatusFromCheck(check, c);
        }
      }
      rows := rows + [Hard(OfConstraint(i), status)];
    }
  }

  method PreservedReport(policy: Policy, observation: Option<Observation>, previous: Option<Observation>)
    returns (rows: seq<Row>)
    ensures rows == PreservedRows(policy, policy.parts, observation, previous)
  {
    rows := [];
    if previous.None? {
      return;
    }
    for i := 0 to |policy.parts|
      invariant rows == PreservedRows(policy, policy.parts[..i], observation, previous)
    {
      var name := policy.parts[i];
      assert policy.parts[..i + 1][..i] == policy.parts[..i];
      if name !in policy.changed {
        rows := rows + [Hard(Preserved(name), PreservedStatus(policy, observation, previous.value, name))];
      }
    }
    assert policy.parts[..|policy.parts|] == policy.parts;
  }

  // An applicable requirement that a machine can judge was measured, with this result.
  predicate MeasuredAs(m: Measures, r: Requirement, observation: Option<Observation>, previous: Option<Observation>,
                       isRevision: bool, passed: bool) {
    && (r.revisionOnly ==> isRevision && previous.Some?) && !r.manual && observation.Some?
    && m.relation(r, observation.value, previous) == Some(passed)
  }

  method RequirementReport(m: Measures, rs: seq<Requirement>, observation: Option<Observation>,
                           previous: Option<Observation>, isRevision: bool)
    returns (rows: seq<Row>)
    ensures rows == RequirementRows(m, rs, observation, previous, isRevision)
    // Row by row: what it is about, and when it passes or fails.
    ensures forall i :: 0 <= i < |rs| ==>
              && rows[i].id == OfRequirement(rs[i].id) && rows[i].hard == rs[i].hard
              && (!rows[i].applicable <==> rs[i].revisionOnly && !isRevision)
              && (rows[i].status == Pass <==> MeasuredAs(m, rs[i], observation, previous, isRevision, true))
              && (rows[i].status == Fail <==> MeasuredAs(m, rs[i], observation, previous, isRevision, false))
  {
    rows := [];
    for i := 0 to |rs|
      invariant |rows| == i
      invariant forall j :: 0 <= j < i ==> rows[j] == RequirementRow(m, rs[j], observation, previous, isRevision)
    {
      rows := rows + [RequirementRow(m, rs[i], observation, previous, isRevision)];
    }
  }

  method Report(m: Measures, result: Result, policy: Policy, observation: Option<Observation>,
                previous: Option<Observation>, rs: seq<Requirement>)
    returns (rows: seq<Row>, verified: bool)
    requires policy.version == 1 || policy.version == 2
    ensures rows == Rows(m, result, policy, observation, previous, rs) && verified == MachineVerified(result, rows)
  {
    var jobs := [];
    for i := 0 to |JOBS|
      invariant |jobs| == i && forall j :: 0 <= j < i ==> jobs[j] == JobRow(result, JOBS[j], observation.Some?)
    {
      jobs := jobs + [JobRow(result, JOBS[i], observation.Some?)];
    }
    assert jobs == [jobs[0], jobs[1], jobs[2], jobs[3]];
    var overall, constraints := ConstraintReport(m, policy, observation, previous);
    var preserved := PreservedReport(policy, observation, previous);
    var relations := RequirementReport(m, rs, observation, previous, result.parent.Some?);
    rows := jobs + ParentRows(result, previous.Some?) + [ProvenanceRow(result)] + [overall] + constraints + preserved
            + relations;
    verified := MachineVerified(result, rows);
  }

  // ---- The controller's run ----

  // The observation read back for the report, after two more jobs and the rechecks have run.
  datatype Reread = Vanished | Unreadable | Read(observation: Observation)

  // Guarded steps that are not jobs: freezing the inputs, finding the scene, reading the
  // observation, rechecking the provenance.
  datatype Step = Inputs | Scene | Observe | Recheck

  // What happens to an attempt: how each job ends (None when it raises without an exit code), which
  // steps raise, the inspected observation, whether files are discarded, and what is read back.
  datatype Attempt = Attempt(exits: string -> Option<int>, raises: Step -> bool, observation: Observation,
                             discarded: bool, reread: Reread)

  // The accepted parent; its hash is the SHA-256 of its result, in hexadecimal.
  datatype Parent = Parent(revision: string, hash: string, observation: Observation)

  predicate ValidParent(parent: Option<Parent>) { parent.Some? ==> |parent.value.hash| == 64 }

  function PreviousOf(parent: Option<Parent>): Option<Observation> {
    if parent.Some? then Some(parent.value.observation) else None
  }

  predicate JobFails(a: Attempt, job: string) { a.exits(job) != Some(0) }

  const STAGES := 9

  // How many of the nine guarded stages complete.
  function Completed(m: Measures, policy: Policy, a: Attempt, previous: Option<Observation>): nat {
    if a.raises(Inputs) then 0
    else if JobFails(a, JOBS[0]) then 1
    else if a.raises(Scene) then 2
    else if JobFails(a, JOBS[1]) then 3
    else if a.raises(Observe) then 4
    else if OverallStatus(m, policy, Some(a.observation), previous) == Unknown then 5
    else if JobFails(a, JOBS[2]) then 6
    else if JobFails(a, JOBS[3]) then 7
    else if a.raises(Recheck) then 8
    else STAGES
  }

  // The jobs that are recorded when so many stages complete.
  function JobsBefore(done: nat): map<string, int> {
    if done <= 1 then map[]
    else if done <= 3 then map[JOBS[0] := 0]
    else if done <= 6 then map[JOBS[0] := 0, JOBS[1] := 0]
    else if done == 7 then map[JOBS[0] := 0, JOBS[1] := 0, JOBS[2] := 0]
    else map[JOBS[0] := 0, JOBS[1] := 0, JOBS[2] := 0, JOBS[3] := 0]
  }

  predicate Wanted(row: Row) { row.hard && row.applicable && row.status != Pass }

  predicate AnyWanted(rows: seq<Row>) { exists r :: r in rows && Wanted(r) }

  predicate AnyFailed(rows: seq<Row>) { exists r :: r in rows && Wanted(r) && r.status == Fail }

  // The verdict of `check` and the requirement rows that do not pass, with their status.
  function Decision(m: Measures, policy: Policy, a: Attempt, previous: Option<Observation>, rs: seq<Requirement>): BuildStatus {
    var rows := RequirementRows(m, rs, Some(a.observation), previous, previous.Some?);
    if Completed(m, policy, a, previous) < STAGES || a.discarded || a.reread.Unreadable? then NeedsReview
    else if OverallStatus(m, policy, Some(a.observation), previous) == Fail || AnyFailed(rows) then Rejected
    else if AnyWanted(rows) then NeedsReview
    else Accepted
  }

  // result.json
  function ResultOf(m: Measures, policy: Policy, a: Attempt, parent: Option<Parent>, rs: seq<Requirement>): Result {
    var previous := PreviousOf(parent);
    var done := Completed(m, policy, a, previous);
    Result(Decision(m, policy, a, previous, rs),
           if parent.Some? then Some(parent.value.revision) else None,
           if parent.Some? then Some(parent.value.hash) else None,
           JobsBefore(done), done == STAGES && !a.discarded)
  }

  // The failures of the check and of the requirements, as statuses.
  method CollectFailures(check: Check, rows: seq<Row>) returns (failures: seq<Status>)
    requires check.Failures?
    ensures Fail in failures <==> check.found != [] || AnyFailed(rows)
    ensures failures == [] <==> check.found == [] && !AnyWanted(rows)
  {
    failures := seq(|check.found|, _ => Fail);
    assert check.found != [] ==> failures[0] in failures;
    for i := 0 to |rows|
      invariant Fail in failures <==> check.found != [] || AnyFailed(rows[..i])
      invariant failures == [] <==> check.found == [] && !AnyWanted(rows[..i])
    {
      ghost var before := failures;
      assert rows[..i + 1] == rows[..i] + [rows[i]];
      if rows[i].hard && rows[i].applicable && rows[i].status != Pass {
        failures := failures + [rows[i].status];
      }
      WantedNext(rows[..i], rows[i]);
    }
    assert rows[..|rows|] == rows;
  }

  lemma WantedNext(rows: seq<Row>, row: Row)
    ensures AnyWanted(rows + [row]) <==> AnyWanted(rows) || Wanted(row)
    ensures AnyFailed(rows + [row]) <==> AnyFailed(rows) || (Wanted(row) && row.status == Fail)
  {
    assert forall r :: r in rows + [row] <==> r in rows || r == row;
  }

  // The guarded part of `build`: every stage adds to the result or raises, and what an earlier
  // stage added stays.
  method GuardedRun(m: Measures, policy: Policy, a: Attempt, previous: Option<Observation>, rs: seq<Requirement>)
    returns (jobs: map<string, int>, provenance: bool, status: BuildStatus)
    requires policy.version == 1 || policy.version == 2
    ensures var done := Completed(m, policy, a, previous);
            && jobs == JobsBefore(done) && (provenance <==> done == STAGES)
            && (!a.discarded && !a.reread.Unreadable? ==> status == Decision(m, policy, a, previous, rs))
  {
    jobs, provenance, status := map[], false, NeedsReview;
    if a.raises(Inputs) || JobFails(a, JOBS[0]) { return; }
    jobs := jobs[JOBS[0] := 0];
    if a.raises(Scene) || JobFails(a, JOBS[1]) { return; }
    jobs := jobs[JOBS[1] := 0];
    if a.raises(Observe) { return; }
    var check := Inspect(m, policy, a.observation, previous);
    if check.Raised? { return; }
    var rows := RequirementReport(m, rs, Some(a.observation), previous, previous.Some?);
    var failures := CollectFailures(check, rows);
    if JobFails(a, JOBS[2]) { return; }
    jobs := jobs[JOBS[2] := 0];
    if JobFails(a, JOBS[3]) { return; }
    jobs := jobs[JOBS[3] := 0];
    if a.raises(Recheck) { return; }
    provenance := true;
    status := if Fail in failures then Rejected else if failures == [] then Accepted else NeedsReview;
  }

  // The result of a build, to the point where the report is made.
  method MakeResult(m: Measures, policy: Policy, a: Attempt, parent: Option<Parent>, rs: seq<Requirement>)
    returns (result: Result)
    requires policy.version == 1 || policy.version == 2
    ensures result == ResultOf(m, policy, a, parent, rs)
  {
    var jobs, provenance, status := GuardedRun(m, policy, a, PreviousOf(parent), rs);
    if a.discarded {
      status, provenance := NeedsReview, false;
    }
    if a.reread.Unreadable? {
      status := NeedsReview;
    }
    result := Result(status, if parent.Some? then Some(parent.value.revision) else None,
                     if parent.Some? then Some(parent.value.hash) else None, jobs, provenance);
  }

  function Observed(reread: Reread): Option<Observation> {
    if reread.Read? then Some(reread.observation) else None
  }

  // What the report asks of the rows that are about the run itself.
  predicate Complete(result: Result, previous: Option<Observation>) {
    && (forall job :: job in JOBS ==> job in result.jobs && result.jobs[job] == 0) && result.provenance
    && (result.parent.Some? <==> previous.Some?)
    && (result.parent.Some? ==> result.parentHash.Some? && |result.parentHash.value| == 64)
  }

  // Accepted only after every job ended with 0, with checked provenance and a bound parent.
  lemma AcceptedIsComplete(m: Measures, policy: Policy, a: Attempt, parent: Option<Parent>, rs: seq<Requirement>)
    requires ValidParent(parent) && ResultOf(m, policy, a, parent, rs).status == Accepted
    ensures Complete(ResultOf(m, policy, a, parent, rs), PreviousOf(parent))
  {
  }

  lemma AcceptedConstraintsPass(m: Measures, policy: Policy, observation: Observation, previous: Option<Observation>)
    requires OverallStatus(m, policy, Some(observation), previous) == Pass
    ensures AllPass(ConstraintRows(m, policy, Some(observation), previous))
  {
    if policy.version == 1 {
      RowsDecideV1(m, policy, observation.parts, PartsOf(previous));
    } else {
      RowsDecideV2(m, policy, observation, previous);
    }
  }

  lemma {:induction false} AcceptedPreservedPass(m: Measures, policy: Policy, names: seq<string>,
                                                 observation: Observation, previous: Option<Observation>)
    requires OverallStatus(m, policy, Some(observation), previous) == Pass
    requires forall n :: n in names ==> n in policy.parts
    ensures AllPass(PreservedRows(policy, names, Some(observation), previous))
  {
    if names != [] && previous.Some? {
      var last := names[|names| - 1];
      AcceptedPreservedPass(m, policy, names[..|names| - 1], observation, previous);
      assert last in policy.parts;
      if last !in policy.changed {
        if policy.version == 1 {
          RowsDecideV1(m, policy, observation.parts, PartsOf(previous));
        } else {
          RowsDecideV2(m, policy, observation, previous);
        }
        assert PreservedStatus(policy, Some(observation), previous.value, last) == Pass;
      }
    }
  }

  // A hard requirement that applies: in a first build those about the revision do not.
  predicate Applies(r: Requirement, previous: Option<Observation>) { r.hard && (r.revisionOnly ==> previous.Some?) }

  // Every hard requirement that applies is one for a machine, and was measured to hold.
  predicate RelationsHold(m: Measures, observation: Observation, previous: Option<Observation>, rs: seq<Requirement>) {
    forall r :: r in rs && Applies(r, previous) ==> !r.manual && m.relation(r, observation, previous) == Some(true)
  }

  // Some hard requirement that applies was measured not to hold.
  predicate RelationFails(m: Measures, observation: Observation, previous: Option<Observation>, rs: seq<Requirement>) {
    exists r :: r in rs && Applies(r, previous) && !r.manual && m.relation(r, observation, previous) == Some(false)
  }

  lemma RowWanted(m: Measures, r: Requirement, observation: Observation, previous: Option<Observation>)
    ensures var row := RequirementRow(m, r, Some(observation), previous, previous.Some?);
            && (Wanted(row) <==> Applies(r, previous)
                                 && !(!r.manual && m.relation(r, observation, previous) == Some(true)))
            && (Wanted(row) && row.status == Fail <==> Applies(r, previous) && !r.manual
                                                       && m.relation(r, observation, previous) == Some(false))
  {
    PassedOrNot(m.relation(r, observation, previous));
  }

  // What the controller collects says exactly that.
  lemma RowsWanted(m: Measures, observation: Observation, previous: Option<Observation>, rs: seq<Requirement>)
    ensures var rows := RequirementRows(m, rs, Some(observation), previous, previous.Some?);
            && (!AnyWanted(rows) <==> RelationsHold(m, observation, previous, rs))
            && (AnyFailed(rows) <==> RelationFails(m, observation, previous, rs))
  {
    var rows := RequirementRows(m, rs, Some(observation), previous, previous.Some?);
    forall r ensures r in rs ==> RequirementRow(m, r, Some(observation), previous, previous.Some?) in rows {
      if r in rs {
        var i :| 0 <= i < |rs| && rs[i] == r;
        assert rows[i] == RequirementRow(m, r, Some(observation), previous, previous.Some?);
      }
    }
    forall r ensures var row := RequirementRow(m, r, Some(observation), previous, previous.Some?);
                     && (Wanted(row) <==> Applies(r, previous)
                                          && !(!r.manual && m.relation(r, observation, previous) == Some(true)))
                     && (Wanted(row) && row.status == Fail <==> Applies(r, previous) && !r.manual
                                                                && m.relation(r, observation, previous) == Some(false))
    {
      RowWanted(m, r, observation, previous);
    }
    assert forall row :: row in rows ==>
      exists i :: 0 <= i < |rs| && row == RequirementRow(m, rs[i], Some(observation), previous, previous.Some?);
  }

  // The evidence is clean under either version.
  ghost predicate EvidenceHolds(m: Measures, policy: Policy, observation: Observation, previous: Option<Observation>) {
    if policy.version == 1 then HoldsV1(m, policy, observation.parts, PartsOf(previous))
    else HoldsV2(m, policy, observation, previous)
  }

  // No job failed and nothing was raised.
  predicate RanThrough(a: Attempt) {
    && !a.raises(Inputs) && !a.raises(Scene) && !a.raises(Observe) && !a.raises(Recheck)
    && a.exits("author") == a.exits("inspect") == a.exits("roundtrip") == a.exits("reopen") == Some(0)
  }

  // When the controller accepts and rejects, from the evidence and the measurements themselves;
  // everything else needs review.
  lemma StatusIff(m: Measures, policy: Policy, a: Attempt, parent: Option<Parent>, rs: seq<Requirement>)
    ensures var status, previous := ResultOf(m, policy, a, parent, rs).status, PreviousOf(parent);
            var sound := RanThrough(a) && !a.discarded && !a.reread.Unreadable?;
            var check := OverallStatus(m, policy, Some(a.observation), previous);
            && (status == Accepted <==>
                  sound && EvidenceHolds(m, policy, a.observation, previous) && RelationsHold(m, a.observation, previous, rs))
            && (status == Rejected <==>
                  sound && check != Unknown && (check == Fail || RelationFails(m, a.observation, previous, rs)))
  {
    var previous := PreviousOf(parent);
    RowsWanted(m, a.observation, previous, rs);
    if policy.version == 1 {
      CleanIffV1(m, policy, a.observation.parts, PartsOf(previous));
    } else {
      CleanIffV2(m, policy, a.observation, previous);
    }
    assert JOBS == ["author", "inspect", "roundtrip", "reopen"];
  }

  // Every job up to this one ended with 0, and no step before it raised.
  predicate JobEnded(m: Measures, policy: Policy, a: Attempt, previous: Option<Observation>, job: string) {
    && !a.raises(Inputs) && a.exits("author") == Some(0)
    && (job == "author" || (!a.raises(Scene) && a.exits("inspect") == Some(0)
    && (job == "inspect" || (!a.raises(Observe) && OverallStatus(m, policy, Some(a.observation), previous) != Unknown
                             && a.exits("roundtrip") == Some(0)
    && (job == "roundtrip" || a.exits("reopen") == Some(0))))))
  }

  // The rows about the run itself: each job's passes exactly when the run got past it, inspection
  // only with an observation to read; the parent's when there is one to compare with.
  lemma RunRows(m: Measures, policy: Policy, a: Attempt, parent: Option<Parent>, rs: seq<Requirement>, job: string,
                observed: bool)
    requires job in JOBS && ValidParent(parent)
    ensures var result, previous := ResultOf(m, policy, a, parent, rs), PreviousOf(parent);
            && (JobRow(result, job, observed).status == Pass
                <==> JobEnded(m, policy, a, previous, job) && (job == "inspect" ==> observed))
            && (ProvenanceRow(result).status == Pass
                <==> JobEnded(m, policy, a, previous, "reopen") && !a.raises(Recheck) && !a.discarded)
            && (parent.Some? ==> ParentRows(result, previous.Some?) == [Row(ParentReference, true, true, Pass)])
            && (parent.None? ==> ParentRows(result, previous.Some?) == [])
  {
    assert JOBS == ["author", "inspect", "roundtrip", "reopen"];
    DifferentJobs();
  }

  lemma DifferentJobs()
    ensures "author" != "inspect" && "author" != "roundtrip" && "author" != "reopen"
    ensures "inspect" != "roundtrip" && "inspect" != "reopen" && "roundtrip" != "reopen"
  {
    assert "author"[0] != "inspect"[0] && "roundtrip"[1] != "reopen"[1];
  }

  // What has to hold of the observation that the report reads.
  ghost predicate Passes(m: Measures, policy: Policy, observation: Observation, previous: Option<Observation>,
                         rs: seq<Requirement>) {
    EvidenceHolds(m, policy, observation, previous) && RelationsHold(m, observation, previous, rs)
  }

  lemma PassesIff(m: Measures, policy: Policy, o: Observation, previous: Option<Observation>, rs: seq<Requirement>)
    ensures Passes(m, policy, o, previous, rs) <==>
              && OverallStatus(m, policy, Some(o), previous) == Pass
              && !AnyWanted(RequirementRows(m, rs, Some(o), previous, previous.Some?))
  {
    RowsWanted(m, o, previous, rs);
    if policy.version == 1 {
      CleanIffV1(m, policy, o.parts, PartsOf(previous));
    } else {
      CleanIffV2(m, policy, o, previous);
    }
  }

  lemma PassingRows(m: Measures, policy: Policy, o: Observation, previous: Option<Observation>, rs: seq<Requirement>,
                    result: Result)
    requires Complete(result, previous) && Passes(m, policy, o, previous, rs)
    ensures AllPass(Rows(m, result, policy, Some(o), previous, rs))
  {
    PassesIff(m, policy, o, previous, rs);
    AcceptedConstraintsPass(m, policy, o, previous);
    AcceptedPreservedPass(m, policy, policy.parts, o, previous);
    var rows := RequirementRows(m, rs, Some(o), previous, previous.Some?);
    forall r | r in rows && r.hard && r.applicable ensures r.status == Pass {
      assert !Wanted(r);
    }
    assert forall i :: 0 <= i < |JOBS| ==> JOBS[i] in JOBS && JobRow(result, JOBS[i], true).status == Pass;
    var jobs := [JobRow(result, JOBS[0], true), JobRow(result, JOBS[1], true), JobRow(result, JOBS[2], true),
                 JobRow(result, JOBS[3], true)];
    var head := jobs + ParentRows(result, previous.Some?) + [ProvenanceRow(result)] + [Hard(Overall, Pass)];
    assert AllPass(head);
    AllPassTogether(head, ConstraintRows(m, policy, Some(o), previous));
    AllPassTogether(head + ConstraintRows(m, policy, Some(o), previous),
                    PreservedRows(policy, policy.parts, Some(o), previous));
    AllPassTogether(head + ConstraintRows(m, policy, Some(o), previous)
                    + PreservedRows(policy, policy.parts, Some(o), previous), rows);
  }

  lemma AllPassTogether(a: seq<Row>, b: seq<Row>)
    requires AllPass(a) && AllPass(b)
    ensures AllPass(a + b)
  {
  }

  // Passing rows say that an observation was read and what holds of it.
  lemma RowsPassing(m: Measures, policy: Policy, o: Option<Observation>, previous: Option<Observation>, rs: seq<Requirement>,
                    result: Result)
    requires AllPass(Rows(m, result, policy, o, previous, rs)) && (result.parent.Some? <==> previous.Some?)
    ensures o.Some? && Passes(m, policy, o.value, previous, rs)
  {
    var rows := Rows(m, result, policy, o, previous, rs);
    assert rows[1] == JobRow(result, JOBS[1], o.Some?) && rows[1] in rows;
    assert Hard(Overall, OverallStatus(m, policy, o, previous)) in rows;
    forall r | r in RequirementRows(m, rs, o, previous, previous.Some?) ensures !Wanted(r) {
      assert r in rows;
    }
    PassesIff(m, policy, o.value, previous, rs);
  }

  // The report verifies a build if and only if the controller accepted it and the observation that
  // was read back passes the checks and the requirements, whichever observation was inspected.
  lemma VerifiedIff(m: Measures, policy: Policy, a: Attempt, parent: Option<Parent>, rs: seq<Requirement>)
    requires ValidParent(parent)
    ensures var result := ResultOf(m, policy, a, parent, rs);
            (MachineVerified(result, Rows(m, result, policy, Observed(a.reread), PreviousOf(parent), rs))
             <==> result.status == Accepted && a.reread.Read?
                  && Passes(m, policy, a.reread.observation, PreviousOf(parent), rs))
  {
    var result, previous := ResultOf(m, policy, a, parent, rs), PreviousOf(parent);
    if result.status == Accepted {
      AcceptedIsComplete(m, policy, a, parent, rs);
      if a.reread.Read? && Passes(m, policy, a.reread.observation, previous, rs) {
        PassingRows(m, policy, a.reread.observation, previous, rs, result);
      }
      if AllPass(Rows(m, result, policy, Observed(a.reread), previous, rs)) {
        RowsPassing(m, policy, Observed(a.reread), previous, rs, result);
      }
    }
  }

  // So accepted by the controller means verified by the report, when the observation that was
  // inspected is the one read back.
  lemma AcceptedIsVerified(m: Measures, policy: Policy, a: Attempt, parent: Option<Parent>, rs: seq<Requirement>)
    requires ValidParent(parent) && a.reread == Read(a.observation)
    ensures var result := ResultOf(m, policy, a, parent, rs);
            (result.status == Accepted
             <==> MachineVerified(result, Rows(m, result, policy, Observed(a.reread), PreviousOf(parent), rs)))
  {
    VerifiedIff(m, policy, a, parent, rs);
    StatusIff(m, policy, a, parent, rs);
  }

  // The observation file may vanish after inspection: then no accepted build is verified.
  lemma VanishedObservationIsNotVerified(m: Measures, policy: Policy, a: Attempt, parent: Option<Parent>,
                                         rs: seq<Requirement>)
    requires ValidParent(parent) && a.reread.Vanished?
    ensures var result := ResultOf(m, policy, a, parent, rs);
            !MachineVerified(result, Rows(m, result, policy, None, PreviousOf(parent), rs))
  {
    VerifiedIff(m, policy, a, parent, rs);
  }

  // A run in which nothing goes wrong.
  function CleanRun(observation: Observation, reread: Reread): Attempt {
    Attempt(_ => Some(0), _ => false, observation, false, reread)
  }

  // Two accepted builds that are not verified: the file is gone, or holds another observation.
  lemma AcceptedAndNotVerified(m: Measures, reread: Reread)
    requires reread == Vanished || reread == Read(Observation(1, map[]))
    ensures var policy := Policy(1, ["p"], {}, []);
            var a := CleanRun(Observation(1, map["p" := Part(true, map[], "")]), reread);
            var result := ResultOf(m, policy, a, None, []);
            && result.status == Accepted
            && !MachineVerified(result, Rows(m, result, policy, Observed(reread), None, []))
  {
    var policy := Policy(1, ["p"], {}, []);
    var a := CleanRun(Observation(1, map["p" := Part(true, map[], "")]), reread);
    assert Names(policy) == {"p"} == a.observation.parts.Keys;
    assert "p" in Names(policy);
    VerifiedIff(m, policy, a, None, []);
  }
}
