// The checks of both policy versions
// (experimental_modeling/acceptance_v1.py:8-67, acceptance.py:9-103).
module Verdicts {
  import opened Options

  datatype Key = Geometry | Transform | Material

  const KEYS := [Geometry, Transform, Material]

  // An observed part: whether its vertices are a non-empty list of finite triples, the hashes it
  // has, and everything else that a measurement reads.
  datatype Part = Part(wellFormed: bool, hashes: map<Key, string>, shape: string)

  type Parts = map<string, Part>

  datatype Observation = Observation(version: nat, parts: Parts)

  datatype Constraint = Constraint(kind: string, part: string, data: string)

  const TRANSLATED := "translated"

  datatype Policy = Policy(version: nat, parts: seq<string>, changed: set<string>, constraints: seq<Constraint>)

  datatype Requirement = Requirement(id: string, hard: bool, revisionOnly: bool, manual: bool)

  // The measurements themselves: None when one raises. `evidence` is the validation of version 2
  // that precedes them: surfaces of every part, and the work limits.
  datatype Measures = Measures(
    constraint: (Constraint, Part, Option<Part>) -> Option<bool>,
    translated: (Constraint, Part, Part) -> bool,
    evidence: (Policy, Observation, Option<Observation>) -> bool,
    relation: (Requirement, Observation, Option<Observation>) -> Option<bool>)

  datatype Failure = Inventory | Removed | Unscoped | Unchanged(part: string, key: Key) | Broken(constraint: Constraint)

  datatype Check = Raised | Failures(found: seq<Failure>)

  // ---- The version-1 check ----

  function Names(policy: Policy): set<string> { set n | n in policy.parts }

  // The three tests that return at once.
  function Early(policy: Policy, parts: Parts, previous: Option<Parts>): Option<Failure> {
    if parts.Keys != Names(policy) then Some(Inventory)
    else if previous.None? then None
    else if previous.value.Keys - parts.Keys != {} then Some(Removed)
    else if parts.Keys - previous.value.Keys - policy.changed != {} then Some(Unscoped)
    else None
  }

  predicate HasKeys(p: Part) { forall k :: k in KEYS ==> k in p.hashes }

  predicate Protected(policy: Policy, previous: Option<Parts>, name: string) {
    previous.Some? && name !in policy.changed
  }

  // Every part can be checked: vertices well formed, protected hashes present on both sides.
  predicate PartCheckable(policy: Policy, parts: Parts, previous: Option<Parts>, name: string) {
    && name in parts && parts[name].wellFormed
    && (Protected(policy, previous, name) ==>
          HasKeys(parts[name]) && name in previous.value && HasKeys(previous.value[name]))
  }

  predicate SameHash(parts: Parts, previous: Parts, name: string, key: Key) {
    && name in parts && name in previous
    && key in parts[name].hashes && key in previous[name].hashes
    && parts[name].hashes[key] == previous[name].hashes[key]
  }

  predicate PartUnchanged(parts: Parts, previous: Parts, name: string) {
    forall k :: k in KEYS ==> SameHash(parts, previous, name, k)
  }

  function Prior(previous: Option<Parts>, name: string): Option<Part> {
    if previous.Some? && name in previous.value then Some(previous.value[name]) else None
  }

  // A constraint's measurement; a part that is not there raises too.
  function Measured(m: Measures, c: Constraint, parts: Parts, previous: Option<Parts>): Option<bool> {
    if c.part in parts then m.constraint(c, parts[c.part], Prior(previous, c.part)) else None
  }

  predicate Checkable(m: Measures, policy: Policy, parts: Parts, previous: Option<Parts>) {
    && (forall n :: n in parts ==> PartCheckable(policy, parts, previous, n))
    && forall c :: c in policy.constraints ==> Measured(m, c, parts, previous).Some?
  }

  predicate HashFails(policy: Policy, parts: Parts, previous: Option<Parts>, f: Failure) {
    && f.Unchanged? && f.part in parts && Protected(policy, previous, f.part) && f.key in KEYS
    && !SameHash(parts, previous.value, f.part, f.key)
  }

  predicate MeasureFails(m: Measures, constraints: seq<Constraint>, parts: Parts, previous: Option<Parts>, f: Failure) {
    f.Broken? && f.constraint in constraints && Measured(m, f.constraint, parts, previous) == Some(false)
  }

  // What a completed check lists.
  predicate Fails(m: Measures, policy: Policy, parts: Parts, previous: Option<Parts>, f: Failure) {
    HashFails(policy, parts, previous, f) || MeasureFails(m, policy.constraints, parts, previous, f)
  }

  ghost predicate IsCheckV1(m: Measures, policy: Policy, parts: Parts, previous: Option<Parts>, check: Check) {
    match Early(policy, parts, previous)
    case Some(f) => check == Failures([f])
    case None =>
      if Checkable(m, policy, parts, previous) then
        check.Failures? && forall f :: f in check.found <==> Fails(m, policy, parts, previous, f)
      else check.Raised?
  }

  predicate Changed(parts: Parts, previous: Parts, name: string, f: Failure) {
    f.Unchanged? && f.part == name && !SameHash(parts, previous, name, f.key)
  }

  // The hash components that differ, in the order of KEYS.
  method ChangedHashes(parts: Parts, previous: Parts, name: string) returns (found: seq<Failure>)
    ensures forall f :: f in found <==> Changed(parts, previous, name, f) && f.key in KEYS
  {
    found := [];
    for i := 0 to |KEYS|
      invariant forall f :: f in found <==> Changed(parts, previous, name, f) && f.key in KEYS[..i]
    {
      assert KEYS[..i + 1] == KEYS[..i] + [KEYS[i]];
      if !SameHash(parts, previous, name, KEYS[i]) {
        found := found + [Unchanged(name, KEYS[i])];
      }
    }
    assert KEYS[..|KEYS|] == KEYS;
  }

  // The loop over the parts.
  method CheckParts(policy: Policy, parts: Parts, previous: Option<Parts>) returns (check: Check)
    ensures check.Failures? <==> forall n :: n in parts ==> PartCheckable(policy, parts, previous, n)
    ensures check.Failures? ==> forall f :: f in check.found <==> HashFails(policy, parts, previous, f)
  {
    var failures: seq<Failure> := [];
    var left := parts.Keys;
    while left != {}
      invariant left <= parts.Keys
      invariant forall n :: n in parts && n !in left ==> PartCheckable(policy, parts, previous, n)
      invariant forall f :: f in failures <==> HashFails(policy, parts, previous, f) && f.part !in left
      decreases |left|
    {
      var name :| name in left;
      if !PartCheckable(policy, parts, previous, name) {
        return Raised;
      }
      var found: seq<Failure> := [];
      if previous.Some? && name !in policy.changed {
        found := ChangedHashes(parts, previous.value, name);
      }
      failures := failures + found;
      left := left - {name};
    }
    return Failures(failures);
  }

  // The loop over the constraints.
  method CheckConstraints(m: Measures, constraints: seq<Constraint>, parts: Parts, previous: Option<Parts>)
    returns (check: Check)
    ensures check.Failures? <==> forall c :: c in constraints ==> Measured(m, c, parts, previous).Some?
    ensures check.Failures? ==> forall f :: f in check.found <==> MeasureFails(m, constraints, parts, previous, f)
  {
    var failures: seq<Failure> := [];
    for i := 0 to |constraints|
      invariant forall c :: c in constraints[..i] ==> Measured(m, c, parts, previous).Some?
      invariant forall f :: f in failures <==> MeasureFails(m, constraints[..i], parts, previous, f)
    {
      var c := constraints[i];
      var passed := Measured(m, c, parts, previous);
      if passed.None? {
        assert c in constraints;
        return Raised;
      }
      assert constraints[..i + 1] == constraints[..i] + [c];
      if !passed.value {
        failures := failures + [Broken(c)];
      }
    }
    assert constraints[..|constraints|] == constraints;
    return Failures(failures);
  }

  method CheckV1(m: Measures, policy: Policy, parts: Parts, previous: Option<Parts>) returns (check: Check)
    ensures IsCheckV1(m, policy, parts, previous, check)
  {
    var early := Early(policy, parts, previous);
    if early.Some? {
      return Failures([early.value]);
    }
    var first := CheckParts(policy, parts, previous);
    if first.Raised? {
      return Raised;
    }
    var second := CheckConstraints(m, policy.constraints, parts, previous);
    if second.Raised? {
      return Raised;
    }
    return Failures(first.found + second.found);
  }

  // ---- Version 2 ----

  predicate IsHex(c: char) { '0' <= c <= '9' || 'a' <= c <= 'f' }

  predicate ValidHash(h: string) { |h| == 64 && forall c :: c in h ==> IsHex(c) }

  predicate HashesValid(p: Part) { forall k :: k in KEYS ==> k in p.hashes && ValidHash(p.hashes[k]) }

  function PartsOf(o: Option<Observation>): Option<Parts> { if o.Some? then Some(o.value.parts) else None }

  predicate VersionsOk(observation: Observation, previous: Option<Observation>) {
    observation.version == 2 && (previous.Some? ==> previous.value.version == 2)
  }

  function MeasuredV2(m: Measures, c: Constraint, parts: Parts, previous: Option<Parts>): Option<bool> {
    if c.kind != TRANSLATED then Measured(m, c, parts, previous)
    else if c.part in parts && Prior(previous, c.part).Some? then
      Some(m.translated(c, parts[c.part], Prior(previous, c.part).value))
    else None
  }

  predicate ProtectedHashesValid(policy: Policy, parts: Parts, previous: Option<Parts>) {
    previous.Some? ==> forall n :: n in policy.parts && n !in policy.changed ==>
      n in parts && HashesValid(parts[n]) && n in previous.value && HashesValid(previous.value[n])
  }

  predicate CheckableV2(m: Measures, policy: Policy, observation: Observation, previous: Option<Observation>) {
    && m.evidence(policy, observation, previous)
    && ProtectedHashesValid(policy, observation.parts, PartsOf(previous))
    && (forall n :: n in observation.parts ==> PartCheckable(policy, observation.parts, PartsOf(previous), n))
    && forall c :: c in policy.constraints ==> MeasuredV2(m, c, observation.parts, PartsOf(previous)).Some?
  }

  predicate BrokenV2(m: Measures, constraints: seq<Constraint>, parts: Parts, previous: Option<Parts>, f: Failure) {
    f.Broken? && f.constraint in constraints && MeasuredV2(m, f.constraint, parts, previous) == Some(false)
  }

  ghost predicate IsCheckV2(m: Measures, policy: Policy, observation: Observation, previous: Option<Observation>,
                            check: Check) {
    var parts, before := observation.parts, PartsOf(previous);
    if !VersionsOk(observation, previous) then check.Raised?
    else
      match Early(policy, parts, before)
      case Some(f) => check == Failures([f])
      case None =>
        if CheckableV2(m, policy, observation, previous) then
          && check.Failures?
          && forall f :: f in check.found <==>
               HashFails(policy, parts, before, f) || BrokenV2(m, policy.constraints, parts, before, f)
        else check.Raised?
  }

  function Legacy(constraints: seq<Constraint>): seq<Constraint> {
    if constraints == [] then []
    else (if constraints[0].kind != TRANSLATED then [constraints[0]] else []) + Legacy(constraints[1..])
  }

  lemma {:induction false} LegacyMembers(constraints: seq<Constraint>)
    ensures forall c :: c in Legacy(constraints) <==> c in constraints && c.kind != TRANSLATED
  {
    if constraints != [] {
      LegacyMembers(constraints[1..]);
    }
  }

  // The loop over the translated constraints.
  method CheckTranslated(m: Measures, constraints: seq<Constraint>, parts: Parts, previous: Option<Parts>)
    returns (check: Check)
    ensures check.Failures? <==>
              forall c :: c in constraints && c.kind == TRANSLATED ==> MeasuredV2(m, c, parts, previous).Some?
    ensures check.Failures? ==> forall f :: f in check.found <==>
              f.Broken? && f.constraint.kind == TRANSLATED && BrokenV2(m, constraints, parts, previous, f)
  {
    var failures: seq<Failure> := [];
    for i := 0 to |constraints|
      invariant forall c :: c in constraints[..i] && c.kind == TRANSLATED ==> MeasuredV2(m, c, parts, previous).Some?
      invariant forall f :: f in failures <==>
                  f.Broken? && f.constraint.kind == TRANSLATED && BrokenV2(m, constraints[..i], parts, previous, f)
    {
      var c := constraints[i];
      assert constraints[..i + 1] == constraints[..i] + [c];
      if c.kind == TRANSLATED {
        var passed := MeasuredV2(m, c, parts, previous);
        if passed.None? {
          assert c in constraints;
          return Raised;
        }
        if !passed.value {
          failures := failures + [Broken(c)];
        }
      }
    }
    assert constraints[..|constraints|] == constraints;
    return Failures(failures);
  }

  method CheckV2(m: Measures, policy: Policy, observation: Observation, previous: Option<Observation>)
    returns (check: Check)
    ensures IsCheckV2(m, policy, observation, previous, check)
  {
    var parts, before := observation.parts, PartsOf(previous);
    if !VersionsOk(observation, previous) {
      return Raised;
    }
    var early := Early(policy, parts, before);
    if early.Some? {
      return Failures([early.value]);
    }
    if !m.evidence(policy, observation, previous) || !ProtectedHashesValid(policy, parts, before) {
      return Raised;
    }
    var legacy := policy.(constraints := Legacy(policy.constraints));
    LegacyMembers(policy.constraints);
    var first := CheckV1(m, legacy, parts, before);
    SameEarly(policy, legacy, parts, before);
    if first.Raised? {
      return Raised;
    }
    var second := CheckTranslated(m, policy.constraints, parts, before);
    if second.Raised? {
      return Raised;
    }
    return Failures(first.found + second.found);
  }

  // Dropping constraints changes neither the early tests nor the parts.
  lemma SameEarly(policy: Policy, legacy: Policy, parts: Parts, previous: Option<Parts>)
    requires legacy == policy.(constraints := legacy.constraints)
    ensures Early(legacy, parts, previous) == Early(policy, parts, previous)
    ensures forall n :: PartCheckable(legacy, parts, previous, n) <==> PartCheckable(policy, parts, previous, n)
    ensures forall f :: HashFails(legacy, parts, previous, f) <==> HashFails(policy, parts, previous, f)
  {
  }
}
