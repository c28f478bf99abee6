// Builds on a project store, one filesystem action at a time (controller.py:94-117, 188-424).
// The process may stop after any action, and a power loss may then undo unsynced entries.
module EvidenceStore {
  import opened Options
  import opened StoreHistory

  // ---- What every action keeps ----

  predicate Promoted(id: string, dir: Directory) {
    && dir.policy.Holds? && dir.rules.Holds? && dir.result.Holds?
    && var r := dir.result.value;
       && r.revision == id && r.status == Accepted && r.evidence == dir.evidence
       && (r.parent.Some? <==> r.parentHash.Some?)
  }

  predicate AllPromoted(accepted: Directories) { forall id :: id in accepted ==> Promoted(id, accepted[id]) }

  function LockHash(dir: Directory): Option<Hash> {
    if dir.result.Holds? then dir.result.value.lockHash else None
  }

  predicate Records(dir: Directory, hash: Hash) { LockHash(dir) == None || LockHash(dir) == Some(hash) }

  predicate RecordOnly(dirs: Directories, hash: Hash) { forall id :: id in dirs ==> Records(dirs[id], hash) }

  // The result of a build that found the rules locked: it records them when it wrote them.
  predicate Obeys(dir: Directory, hash: Hash) { dir.result.Holds? && dir.rules.Holds? ==> LockHash(dir) == Some(hash) }

  predicate BoundObey(d: Disk, hash: Hash) {
    forall id :: id in d.bound ==>
      (id in d.attempts ==> Obeys(d.attempts[id], hash)) && (id in d.accepted ==> Obeys(d.accepted[id], hash))
  }

  // Every recorded rule hash is this one, it is the hash of the lock file, and builds under the
  // lock record it.
  predicate RulesBound(ruleHash: string -> Hash, d: Disk, hash: Hash) {
    && RecordOnly(d.attempts, hash) && RecordOnly(d.accepted, hash) && BoundObey(d, hash)
    && (d.lock.Holds? ==> ruleHash(d.lock.value) == hash)
  }

  predicate HasVersion(dir: Directory, version: nat) { dir.policy.Holds? ==> dir.policy.value == version }

  predicate AllHaveVersion(dirs: Directories, version: nat) { forall id :: id in dirs ==> HasVersion(dirs[id], version) }

  predicate OneVersion(d: Disk, version: nat) {
    AllHaveVersion(d.attempts, version) && AllHaveVersion(d.accepted, version)
  }

  // The accepted revisions that a power loss cannot take away.
  function Kept(d: Disk): (kept: Directories)
    ensures Grown(kept, d.accepted)
  {
    map id | id in d.accepted && id in d.synced :: d.accepted[id]
  }

  // Any pointer that is there, or may be there after a power loss, has its whole chain on disk.
  ghost predicate PointersAnchored(digest: Record -> Hash, d: Disk) {
    && d.pointer in d.survivors
    && forall p :: p in d.survivors && p.Some? ==> Anchored(digest, Kept(d), p.value)
  }

  ghost predicate Sound(digest: Record -> Hash, ruleHash: string -> Hash, d: Disk) {
    && AllPromoted(d.accepted) && d.accepted.Keys <= d.whole && PointersAnchored(digest, d)
    && (exists hash :: RulesBound(ruleHash, d, hash)) && (exists version :: OneVersion(d, version))
  }

  predicate EndsAtRoot(accepted: Directories, chain: seq<string>) {
    chain != [] && HasAccepted(accepted, chain[|chain| - 1]) && RecordOf(accepted, chain[|chain| - 1]).parent == None
  }

  // last_good.json names an accepted revision with the recorded hash, and its chain ends at a
  // revision without a parent.
  lemma PointerIsSafe(digest: Record -> Hash, ruleHash: string -> Hash, d: Disk)
    requires Sound(digest, ruleHash, d) && d.pointer.Some?
    ensures Names(digest, d.accepted, d.pointer.value)
    ensures exists chain :: Linked(digest, d.accepted, chain, d.pointer.value) && NoRepeats(chain)
                         && EndsAtRoot(d.accepted, chain)
  {
    AnchorStays(digest, Kept(d), d.accepted, d.pointer.value);
    var chain :| Linked(digest, d.accepted, chain, d.pointer.value) && NoRepeats(chain);
    ChainEnds(digest, d.accepted, chain, d.pointer.value);
  }

  lemma {:induction false} ChainEnds(digest: Record -> Hash, accepted: Directories, chain: seq<string>, p: Pointer)
    requires Linked(digest, accepted, chain, p) && AllPromoted(accepted)
    ensures EndsAtRoot(accepted, chain)
    decreases |chain|
  {
    if !Unbound(RecordOf(accepted, p.revision)) {
      ChainEnds(digest, accepted, chain[1..], Before(accepted, p));
      assert chain[1..][|chain| - 2] == chain[|chain| - 1];
    }
  }

  predicate NoneRecorded(dirs: Directories) { forall id :: id in dirs ==> LockHash(dirs[id]) == None }

  predicate NothingRecorded(d: Disk) { NoneRecorded(d.attempts) && NoneRecorded(d.accepted) }

  // Every recorded rule hash has its lock file: it is there, with that hash.
  predicate Covered(ruleHash: string -> Hash, d: Disk) {
    || NothingRecorded(d)
    || (d.lock.Holds? && RecordOnly(d.attempts, ruleHash(d.lock.value)) && RecordOnly(d.accepted, ruleHash(d.lock.value)))
  }

  // A result that records the lock lies beside the rules it was built under.
  predicate RulesBeside(dirs: Directories) { forall id :: id in dirs ==> LockHash(dirs[id]).Some? ==> dirs[id].rules.Holds? }

  // Any two results that record a rule hash record the same one, and it is the lock's; any two
  // recorded policies have the same version.
  lemma RecordsAgree(digest: Record -> Hash, ruleHash: string -> Hash, d: Disk, a: Directory, b: Directory)
    requires Sound(digest, ruleHash, d)
    requires a in d.attempts.Values + d.accepted.Values && b in d.attempts.Values + d.accepted.Values
    ensures LockHash(a).Some? && LockHash(b).Some? ==> LockHash(a) == LockHash(b)
    ensures LockHash(a).Some? && d.lock.Holds? ==> LockHash(a).value == ruleHash(d.lock.value)
    ensures LockHash(a).Some? && Covered(ruleHash, d) ==> d.lock.Holds? && LockHash(a).value == ruleHash(d.lock.value)
    ensures a.policy.Holds? && b.policy.Holds? ==> a.policy == b.policy
  {
    var hash :| RulesBound(ruleHash, d, hash);
    var version :| OneVersion(d, version);
  }

  // `verify_accepted`, where the evidence digests stand for the other files.
  predicate Verifies(digest: Record -> Hash, accepted: Directories, p: Pointer) {
    && p.revision in accepted && accepted[p.revision].result.Holds?
    && var r := accepted[p.revision].result.value;
       digest(r) == p.hash && r.status == Accepted && accepted[p.revision].evidence == r.evidence
  }

  // ---- One lemma per filesystem action ----

  lemma LockKeeps(digest: Record -> Hash, ruleHash: string -> Hash, d: Disk, f: File<string>, e: Disk)
    requires Sound(digest, ruleHash, d) && !f.Absent?
    requires NothingRecorded(d)
    requires e == d.(lock := f, lockSynced := false)
    ensures Sound(digest, ruleHash, e)
  {
    var hash :| RulesBound(ruleHash, d, hash);
    assert RulesBound(ruleHash, e, if f.Holds? then ruleHash(f.value) else hash);
    var version :| OneVersion(d, version);
    assert OneVersion(e, version);
    assert Kept(e) == Kept(d);
  }

  lemma AttemptKeeps(digest: Record -> Hash, ruleHash: string -> Hash, d: Disk, id: string, dir: Directory,
                     version: nat, hash: Hash, e: Disk)
    requires Sound(digest, ruleHash, d)
    requires OneVersion(d, version) && HasVersion(dir, version)
    requires RulesBound(ruleHash, d, hash) && Records(dir, hash) && (id in d.bound ==> Obeys(dir, hash))
    requires e == d.(attempts := d.attempts[id := dir])
    ensures Sound(digest, ruleHash, e) && OneVersion(e, version) && RulesBound(ruleHash, e, hash)
  {
    assert OneVersion(e, version) && RulesBound(ruleHash, e, hash);
    assert Kept(e) == Kept(d);
  }

  function Entered(d: Disk, id: string): set<string> { if d.lock.Holds? then d.bound + {id} else d.bound - {id} }

  lemma EnterKeeps(digest: Record -> Hash, ruleHash: string -> Hash, d: Disk, id: string, version: nat, hash: Hash, e: Disk)
    requires Sound(digest, ruleHash, d) && OneVersion(d, version) && RulesBound(ruleHash, d, hash)
    requires id !in d.attempts && id !in d.accepted
    requires e == d.(bound := Entered(d, id), whole := d.whole - {id})
    ensures Sound(digest, ruleHash, e) && OneVersion(e, version) && RulesBound(ruleHash, e, hash)
  {
    assert OneVersion(e, version) && RulesBound(ruleHash, e, hash);
    assert Kept(e) == Kept(d);
  }

  // `sync_tree`
  lemma SyncTreeKeeps(digest: Record -> Hash, ruleHash: string -> Hash, d: Disk, id: string, e: Disk)
    requires Sound(digest, ruleHash, d) && e == d.(whole := d.whole + {id})
    ensures Sound(digest, ruleHash, e)
  {
    RestKeeps(digest, ruleHash, d, e);
    assert Kept(e) == Kept(d);
  }

  lemma RenameKeeps(digest: Record -> Hash, ruleHash: string -> Hash, d: Disk, id: string, e: Disk)
    requires Sound(digest, ruleHash, d) && id in d.attempts && id !in d.accepted && Promoted(id, d.attempts[id])
    requires id in d.whole
    requires e == d.(attempts := d.attempts - {id}, accepted := d.accepted[id := d.attempts[id]],
                     synced := d.synced - {id})
    ensures Sound(digest, ruleHash, e)
  {
    var version :| OneVersion(d, version);
    assert OneVersion(e, version);
    var hash :| RulesBound(ruleHash, d, hash);
    assert RulesBound(ruleHash, e, hash);
    assert Kept(e) == Kept(d);
  }

  lemma SyncAcceptedKeeps(digest: Record -> Hash, ruleHash: string -> Hash, d: Disk, e: Disk)
    requires Sound(digest, ruleHash, d) && e == d.(synced := d.accepted.Keys)
    ensures Sound(digest, ruleHash, e) && Kept(e) == d.accepted
  {
    RestKeeps(digest, ruleHash, d, e);
    forall p | p in e.survivors && p.Some? ensures Anchored(digest, Kept(e), p.value) {
      AnchorStays(digest, Kept(d), Kept(e), p.value);
    }
  }

  // Directories and lock as before: rules and versions too.
  lemma RestKeeps(digest: Record -> Hash, ruleHash: string -> Hash, d: Disk, e: Disk)
    requires Sound(digest, ruleHash, d) && e.attempts == d.attempts && e.accepted == d.accepted && e.lock == d.lock
    requires e.bound == d.bound
    ensures (exists hash :: RulesBound(ruleHash, e, hash)) && (exists version :: OneVersion(e, version))
  {
    var version :| OneVersion(d, version);
    assert OneVersion(e, version);
    var hash :| RulesBound(ruleHash, d, hash);
    assert RulesBound(ruleHash, e, hash);
  }

  lemma TempKeeps(digest: Record -> Hash, ruleHash: string -> Hash, d: Disk, id: string, f: File<Pointer>, e: Disk)
    requires Sound(digest, ruleHash, d) && e == d.(temps := d.temps[id := f])
    ensures Sound(digest, ruleHash, e)
  {
    RestKeeps(digest, ruleHash, d, e);
    assert Kept(e) == Kept(d);
  }

  lemma ReplaceKeeps(digest: Record -> Hash, ruleHash: string -> Hash, d: Disk, id: string, p: Pointer, e: Disk)
    requires Sound(digest, ruleHash, d) && Anchored(digest, Kept(d), p)
    requires e == d.(temps := d.temps - {id}, pointer := Some(p), survivors := d.survivors + {Some(p)})
    ensures Sound(digest, ruleHash, e)
  {
    RestKeeps(digest, ruleHash, d, e);
    assert Kept(e) == Kept(d);
  }

  lemma SyncStoreKeeps(digest: Record -> Hash, ruleHash: string -> Hash, d: Disk, e: Disk)
    requires Sound(digest, ruleHash, d) && e == d.(lockSynced := true, survivors := {d.pointer})
    ensures Sound(digest, ruleHash, e)
  {
    RestKeeps(digest, ruleHash, d, e);
    assert Kept(e) == Kept(d);
  }

  // ---- Power loss ----

  // A directory some of whose files did not reach the disk.
  predicate Degraded(d: Directory, e: Directory) {
    && (e.policy.Holds? ==> e.policy == d.policy) && (e.rules.Holds? ==> e.rules == d.rules)
    && (e.result.Holds? ==> e.result == d.result)
  }

  // An attempt found after the loss was one before it, or was being renamed; a synced revision keeps
  // its files, wherever it is found.
  predicate Remains(d: Disk, id: string, dir: Directory) {
    || (id in d.attempts && if id in d.whole then dir == d.attempts[id] else Degraded(d.attempts[id], dir))
    || (id in d.accepted && id !in d.synced && dir == d.accepted[id])
  }

  // Any state a power loss can leave: unsynced entries are there or not, synced ones are.
  predicate AfterPowerLoss(d: Disk, e: Disk) {
    && (e.lock == d.lock || (!d.lockSynced && e.lock.Absent?)) && e.lockSynced
    && (forall id :: id in e.attempts ==> Remains(d, id, e.attempts[id]))
    && Grown(Kept(d), e.accepted) && Grown(e.accepted, d.accepted) && e.synced == e.accepted.Keys
    && e.pointer in d.survivors && e.survivors == {e.pointer} && e.bound == d.bound
    && e.whole == e.attempts.Keys + e.accepted.Keys
  }

  lemma PowerLossKeeps(digest: Record -> Hash, ruleHash: string -> Hash, d: Disk, e: Disk)
    requires Sound(digest, ruleHash, d) && AfterPowerLoss(d, e)
    ensures Sound(digest, ruleHash, e)
  {
    var version :| OneVersion(d, version);
    assert OneVersion(e, version);
    var hash :| RulesBound(ruleHash, d, hash);
    assert RulesBound(ruleHash, e, hash);
    if e.pointer.Some? {
      AnchorStays(digest, Kept(d), e.accepted, e.pointer.value);
      assert Kept(e) == e.accepted;
    }
  }

  // The least a power loss can leave of the lock, with everything else as it is.
  function WithoutLock(d: Disk): Disk {
    d.(lock := Absent, lockSynced := true, synced := d.accepted.Keys, survivors := {d.pointer},
       whole := d.attempts.Keys + d.accepted.Keys)
  }

  // Recorded hashes keep their lock in every state that a power loss can leave if and only if the
  // lock is durable or there are none.
  lemma LossKeepsLockIff(digest: Record -> Hash, ruleHash: string -> Hash, d: Disk)
    requires Sound(digest, ruleHash, d) && Covered(ruleHash, d)
    ensures (forall e :: AfterPowerLoss(d, e) ==> Covered(ruleHash, e)) <==> d.lockSynced || NothingRecorded(d)
  {
    if d.lockSynced || NothingRecorded(d) {
      forall e | AfterPowerLoss(d, e) ensures Covered(ruleHash, e) {
        StillRecorded(d, e);
      }
    } else {
      var e := WithoutLock(d);
      assert AfterPowerLoss(d, e);
      assert !NothingRecorded(e) && !e.lock.Holds?;
    }
  }

  // What is recorded after a power loss was recorded before it.
  lemma StillRecorded(d: Disk, e: Disk)
    requires AfterPowerLoss(d, e)
    ensures NothingRecorded(d) ==> NothingRecorded(e)
    ensures forall hash :: RecordOnly(d.attempts, hash) && RecordOnly(d.accepted, hash)
                       ==> RecordOnly(e.attempts, hash) && RecordOnly(e.accepted, hash)
  {
    forall id | id in e.attempts
      ensures LockHash(e.attempts[id]) == None
           || (id in d.attempts && LockHash(e.attempts[id]) == LockHash(d.attempts[id]))
           || (id in d.accepted && LockHash(e.attempts[id]) == LockHash(d.accepted[id]))
    {
      assert Remains(d, id, e.attempts[id]);
    }
  }

  // No attempt that records the lock is unsynced, or without its rules already.
  predicate RecordsWhole(d: Disk) {
    forall id :: id in d.attempts && LockHash(d.attempts[id]).Some? ==> id in d.whole && d.attempts[id].rules.Holds?
  }

  // What can be left of an attempt whose rules did not reach the disk.
  function WithoutRules(d: Disk, id: string): Disk
    requires id in d.attempts
  {
    WithoutLock(d).(lock := d.lock, attempts := d.attempts[id := d.attempts[id].(rules := Absent)])
  }

  lemma LossTakesRules(digest: Record -> Hash, ruleHash: string -> Hash, d: Disk, id: string)
    requires Sound(digest, ruleHash, d) && id in d.attempts && id !in d.whole && LockHash(d.attempts[id]).Some?
    ensures AfterPowerLoss(d, WithoutRules(d, id)) && !RulesBeside(WithoutRules(d, id).attempts)
  {
    assert WithoutRules(d, id).attempts[id].rules.Absent?;
    assert WithoutRules(d, id).attempts.Keys == d.attempts.Keys;
  }

  // A power loss leaves the rules beside every result that records the lock, in every case, if and
  // only if no attempt that records it is unsynced. A revision that is being renamed loses nothing.
  lemma LossKeepsRulesIff(digest: Record -> Hash, ruleHash: string -> Hash, d: Disk)
    requires Sound(digest, ruleHash, d)
    ensures (forall e :: AfterPowerLoss(d, e) ==> RulesBeside(e.attempts)) <==> RecordsWhole(d)
  {
    if RecordsWhole(d) {
      forall e, id | AfterPowerLoss(d, e) && id in e.attempts
        ensures LockHash(e.attempts[id]).Some? ==> e.attempts[id].rules.Holds?
      {
        assert Remains(d, id, e.attempts[id]);
      }
    } else {
      var id :| id in d.attempts && LockHash(d.attempts[id]).Some? && !(id in d.whole && d.attempts[id].rules.Holds?);
      if id in d.whole {
        var e := WithoutLock(d).(lock := d.lock);
        assert AfterPowerLoss(d, e) && !RulesBeside(e.attempts);
      } else {
        LossTakesRules(digest, ruleHash, d, id);
      }
    }
  }

  // ---- A build ----

  const EMPTY_RULES := "{\"schema_version\":1,\"requirements\":[]}"
  const MAX_ENTRIES := 512

  // A build takes at most this many actions.
  const MAX_STEPS := 16

  datatype Request = Request(revision: string, parent: Option<string>, version: nat, provided: Option<string>)

  // How far the guarded part got before an exception: 0 nothing, 1 policy torn, 2 policy written,
  // 3 rules torn, 4 rules written, 5 no exception; and what inspection then found.
  datatype Execution = Execution(stage: nat, evidence: string, verdict: Status)

  datatype Outcome = Refused | Stopped | Done(record: Record)

  // The run ended without an exception, and everything it was checked for held.
  predicate Passed(x: Execution) { x.stage >= 5 && x.verdict == Accepted }

  // What the record of a run says of it: the status is the verdict of a run that ended without an
  // exception, and needs_review otherwise.
  predicate Describes(record: Record, d: Disk, request: Request, x: Execution) {
    && record.revision == request.revision && record.parent == request.parent && record.evidence == x.evidence
    && (record.parentHash == None <==> d.pointer == None)
    && (d.pointer.Some? ==> record.parentHash == Some(d.pointer.value.hash))
    && (x.stage < 5 ==> record.status == NeedsReview) && (x.stage >= 5 ==> record.status == x.verdict)
  }

  // The files that a run got as far as writing, under the lock that is in force.
  predicate Frozen(dir: Directory, lock: File<string>, request: Request, x: Execution) {
    && (dir.policy.Holds? <==> x.stage >= 2) && (dir.policy.Holds? ==> dir.policy.value == request.version)
    && (dir.rules.Holds? <==> x.stage >= 4)
    && (dir.rules.Holds? ==> dir.rules.value == if lock.Holds? then lock.value else EMPTY_RULES)
  }

  predicate PolicyAllows(dir: Directory, version: nat) {
    match dir.policy
    case Holds(v) => v == version
    case Absent => version != 2
    case Torn => false
  }

  predicate DirectoriesAllow(dirs: Directories, version: nat) {
    forall id :: id in dirs ==> PolicyAllows(dirs[id], version) && !dirs[id].result.Torn?
  }

  predicate LockAllows(ruleHash: string -> Hash, d: Disk, provided: Option<string>) {
    match d.lock
    case Torn => false
    case Absent => NothingRecorded(d)
    case Holds(rules) =>
      && RecordOnly(d.attempts, ruleHash(rules)) && RecordOnly(d.accepted, ruleHash(rules))
      && (provided.Some? ==> ruleHash(provided.value) == ruleHash(rules))
  }

  predicate HistoryAllows(ruleHash: string -> Hash, d: Disk, request: Request) {
    && |d.attempts| + |d.accepted| <= MAX_ENTRIES
    && DirectoriesAllow(d.attempts, request.version) && DirectoriesAllow(d.accepted, request.version)
    && LockAllows(ruleHash, d, request.provided)
  }

  // The rest of what a build asks of the store it finds.
  predicate Admissible(digest: Record -> Hash, ruleHash: string -> Hash, d: Disk, request: Request) {
    && HistoryAllows(ruleHash, d, request)
    && request.revision !in d.attempts && request.revision !in d.accepted
    && ParentMatches(d, request) && ParentAgrees(digest, ruleHash, d, RulesFor(d, request))
  }

  function RulesFor(d: Disk, request: Request): string {
    if d.lock.Holds? then d.lock.value else if request.provided.Some? then request.provided.value else EMPTY_RULES
  }

  // The parent passes `verify_accepted` and was built under these rules.
  predicate ParentAgrees(digest: Record -> Hash, ruleHash: string -> Hash, d: Disk, rules: string) {
    d.pointer.Some? ==>
      Verifies(digest, d.accepted, d.pointer.value) && Records(d.accepted[d.pointer.value.revision], ruleHash(rules))
  }

  predicate ParentMatches(d: Disk, request: Request) {
    request.parent == if d.pointer.Some? then Some(d.pointer.value.revision) else None
  }

  // What an unfinished or finished build of this revision may have changed.
  predicate Follows(d: Disk, e: Disk, id: string) {
    && (d.lock.Absent? || (e.lock == d.lock && (d.lockSynced ==> e.lockSynced)))
    && Grown(d.accepted, e.accepted) && Grown(Kept(d), Kept(e))
    && (forall k :: k in e.accepted ==> k in d.accepted || k == id)
    && (forall k :: k in d.attempts ==> k in e.attempts && e.attempts[k] == d.attempts[k])
    && (forall k :: k in d.attempts.Keys + d.accepted.Keys ==> (k in e.bound <==> k in d.bound))
    && (forall k :: k in e.attempts ==> k in d.attempts || k == id)
    && (e.pointer == d.pointer || (e.pointer.Some? && e.pointer.value.revision == id && id in e.accepted))
  }

  class Store {
    const digest: Record -> Hash
    const ruleHash: string -> Hash
    var disk: Disk

    ghost predicate Valid()
      reads this
    {
      Sound(digest, ruleHash, disk)
    }

    constructor (digest: Record -> Hash, ruleHash: string -> Hash)
      ensures Valid() && this.digest == digest && this.ruleHash == ruleHash
      ensures disk == Disk(Absent, true, map[], map[], {}, map[], None, {None}, {}, {})
    {
      this.digest, this.ruleHash := digest, ruleHash;
      disk := Disk(Absent, true, map[], map[], {}, map[], None, {None}, {}, {});
      new;
      assert RulesBound(ruleHash, disk, "") && OneVersion(disk, 1);
    }

    method PowerLoss(after: Disk)
      requires Valid() && AfterPowerLoss(disk, after)
      modifies this
      ensures Valid() && disk == after
    {
      PowerLossKeeps(digest, ruleHash, disk, after);
      disk := after;
    }

    // write_json of the lock, then sync_directory(store); `steps` actions are left.
    method LockRules(rules: string, steps: nat) returns (left: nat, alive: bool)
      requires Valid() && disk.lock.Absent? && NothingRecorded(disk)
      modifies this
      ensures Valid()
      ensures disk == old(disk).(lock := if steps == 0 then Torn else Holds(rules), lockSynced := alive,
                                 survivors := if alive then {old(disk).pointer} else old(disk).survivors)
      ensures (alive <==> steps >= 2) && (alive ==> left == steps - 2)
    {
      ghost var before := disk;
      LockKeeps(digest, ruleHash, before, Torn, before.(lock := Torn, lockSynced := false));
      disk := disk.(lock := Torn, lockSynced := false);
      if steps == 0 {
        return 0, false;
      }
      LockKeeps(digest, ruleHash, before, Holds(rules), before.(lock := Holds(rules), lockSynced := false));
      disk := disk.(lock := Holds(rules));
      if steps == 1 {
        return 0, false;
      }
      SyncStoreKeeps(digest, ruleHash, disk, disk.(lockSynced := true, survivors := {disk.pointer}));
      disk := disk.(lockSynced := true, survivors := {disk.pointer});
      return steps - 2, true;
    }

    // Between the actions of a build: sound, with this policy version and this rule hash.
    ghost predicate Building(version: nat, hash: Hash)
      reads this
    {
      Valid() && OneVersion(disk, version) && RulesBound(ruleHash, disk, hash)
    }

    // One action on the attempt of this revision.
    method PutAttempt(id: string, dir: Directory, ghost version: nat, ghost hash: Hash)
      requires Building(version, hash) && HasVersion(dir, version) && Records(dir, hash)
      requires id !in disk.whole && (id in disk.bound ==> Obeys(dir, hash))
      modifies this
      ensures Building(version, hash) && OneAttempt(old(disk), disk, id) && disk.attempts[id] == dir
    {
      AttemptKeeps(digest, ruleHash, disk, id, dir, version, hash, disk.(attempts := disk.attempts[id := dir]));
      disk := disk.(attempts := disk.attempts[id := dir]);
    }

    // A file of the attempt: created empty, then filled; `far` says how far it gets.
    method WriteFile(id: string, torn: Directory, full: Directory, far: int, ghost version: nat, ghost hash: Hash,
                     steps: nat)
      returns (left: nat, alive: bool)
      requires Building(version, hash) && HasVersion(torn, version) && HasVersion(full, version)
      requires Records(torn, hash) && Records(full, hash) && id in disk.attempts
      requires id !in disk.whole && (id in disk.bound ==> Obeys(torn, hash) && Obeys(full, hash))
      modifies this
      ensures Building(version, hash) && OneAttempt(old(disk), disk, id)
      ensures disk.attempts[id] == full || disk.attempts[id] == torn || disk.attempts[id] == old(disk).attempts[id]
      ensures alive ==> disk.attempts[id] == if far >= 2 then full else if far == 1 then torn else old(disk).attempts[id]
      ensures steps >= 2 ==> alive && left >= steps - 2
    {
      left := steps;
      if far >= 1 {
        PutAttempt(id, torn, version, hash);
        if left == 0 { return 0, false; }
        left := left - 1;
      }
      if far >= 2 {
        PutAttempt(id, full, version, hash);
        if left == 0 { return 0, false; }
        left := left - 1;
      }
      return left, true;
    }

    // The directory and policy.json.
    method WritePolicy(request: Request, rules: string, stage: nat, ghost hash: Hash, steps: nat)
      returns (left: nat, alive: bool)
      requires Building(request.version, hash) && request.revision !in disk.whole
      modifies this
      ensures Building(request.version, hash) && OneAttempt(old(disk), disk, request.revision)
      ensures LockHash(disk.attempts[request.revision]) == None
      ensures alive ==> disk.attempts[request.revision] == Inputs(request, rules, if stage < 2 then stage else 2)
      ensures steps >= 3 ==> alive && left >= steps - 3
    {
      var id := request.revision;
      PutAttempt(id, Inputs(request, rules, 0), request.version, hash);
      if steps == 0 { return 0, false; }
      left, alive := WriteFile(id, Inputs(request, rules, 1), Inputs(request, rules, 2), stage, request.version, hash,
                               steps - 1);
    }

    // The attempt directory and its frozen inputs; dead when the process stopped on the way.
    method WriteInputs(request: Request, rules: string, stage: nat, ghost hash: Hash, steps: nat)
      returns (left: nat, alive: bool)
      requires Building(request.version, hash) && request.revision !in disk.whole
      modifies this
      ensures Building(request.version, hash) && OneAttempt(old(disk), disk, request.revision)
      ensures LockHash(disk.attempts[request.revision]) == None
      ensures alive ==> disk.attempts[request.revision] == Inputs(request, rules, stage)
      ensures steps >= 5 ==> alive && left >= steps - 5
    {
      left, alive := WritePolicy(request, rules, stage, hash, steps);
      if alive {
        left, alive := WriteFile(request.revision, Inputs(request, rules, 3), Inputs(request, rules, 4), stage - 2,
                                 request.version, hash, left);
      }
    }

    // The author's files, then result.json.
    method WriteResult(request: Request, dir: Directory, result: Record, ghost hash: Hash, steps: nat)
      returns (left: nat, alive: bool)
      requires Building(request.version, hash) && HasVersion(dir, request.version) && dir.result.Absent?
      requires request.revision !in disk.whole && (result.lockHash == None || result.lockHash == Some(hash))
      requires request.revision in disk.bound && dir.rules.Holds? ==> result.lockHash == Some(hash)
      modifies this
      ensures Building(request.version, hash) && OneAttempt(old(disk), disk, request.revision)
      ensures LockHash(disk.attempts[request.revision]).Some? ==>
                LockHash(disk.attempts[request.revision]) == result.lockHash && disk.attempts[request.revision].rules == dir.rules
      ensures alive ==> disk.attempts[request.revision] == dir.(evidence := result.evidence, result := Holds(result))
      ensures steps >= 3 ==> alive && left >= steps - 3
    {
      var id, filled := request.revision, dir.(evidence := result.evidence);
      PutAttempt(id, filled, request.version, hash);
      if steps == 0 { return 0, false; }
      left, alive := WriteFile(id, filled.(result := Torn), filled.(result := Holds(result)), 2, request.version, hash,
                               steps - 1);
    }

    // One attempt, to result.json; None when the process stopped on the way.
    method RunAttempt(request: Request, rules: string, x: Execution, steps: nat)
      returns (left: nat, record: Option<Record>)
      requires Building(request.version, BoundHash(ruleHash, disk))
      requires request.revision !in disk.whole && (request.revision in disk.bound ==> disk.lock.Holds?)
      modifies this
      ensures Valid() && OneAttempt(old(disk), disk, request.revision)
      ensures var dir := disk.attempts[request.revision];
              LockHash(dir).Some? ==> disk.lock.Holds? && LockHash(dir).value == ruleHash(disk.lock.value) && dir.rules.Holds?
      ensures steps >= 8 ==> record.Some? && left >= steps - 8
      ensures record.Some? ==>
                && record.value == RecordFor(ruleHash, old(disk), request, x)
                && disk.attempts[request.revision] == Finished(request, rules, x, record.value)
    {
      var result := RecordFor(ruleHash, disk, request, x);
      ghost var hash := BoundHash(ruleHash, disk);
      var alive;
      left, alive := WriteInputs(request, rules, x.stage, hash, steps);
      if !alive {
        return 0, None;
      }
      left, alive := WriteResult(request, disk.attempts[request.revision], result, hash, left);
      return left, if alive then Some(result) else None;
    }

    // `promote` after `sync_tree`: rename, sync, pointer file, replace, sync.
    method Install(id: string, steps: nat) returns (done: bool)
      requires Valid() && id in disk.attempts && id !in disk.accepted && Promoted(id, disk.attempts[id]) && id in disk.whole
      requires ParentOf(disk.attempts[id].result.value) == disk.pointer
      modifies this
      ensures Valid() && PromotedOnly(old(disk), disk, id) && disk.whole == old(disk).whole
      ensures disk.pointer == old(disk).pointer || OneLonger(digest, old(disk), disk, id)
      ensures done ==> disk.pointer == Some(Pointer(id, digest(old(disk).attempts[id].result.value)))
      ensures steps >= 5 && id !in old(disk).temps ==> done
    {
      ghost var before := disk;
      var dir := disk.attempts[id];
      var p := Pointer(id, digest(dir.result.value));
      RenameKeeps(digest, ruleHash, disk, id, disk.(attempts := disk.attempts - {id},
                  accepted := disk.accepted[id := dir], synced := disk.synced - {id}));
      disk := disk.(attempts := disk.attempts - {id}, accepted := disk.accepted[id := dir], synced := disk.synced - {id});
      if steps == 0 { return false; }
      SyncAcceptedKeeps(digest, ruleHash, disk, disk.(synced := disk.accepted.Keys));
      disk := disk.(synced := disk.accepted.Keys);
      if steps == 1 || id in disk.temps { return false; }  // write_json refuses an existing file
      TempKeeps(digest, ruleHash, disk, id, Torn, disk.(temps := disk.temps[id := Torn]));
      disk := disk.(temps := disk.temps[id := Torn]);
      if steps == 2 { return false; }
      TempKeeps(digest, ruleHash, disk, id, Holds(p), disk.(temps := disk.temps[id := Holds(p)]));
      disk := disk.(temps := disk.temps[id := Holds(p)]);
      if steps == 3 { return false; }
      NewPointerIsAnchored(digest, ruleHash, before, disk, id);
      ReplaceKeeps(digest, ruleHash, disk, id, p, disk.(temps := disk.temps - {id}, pointer := Some(p),
                   survivors := disk.survivors + {Some(p)}));
      disk := disk.(temps := disk.temps - {id}, pointer := Some(p), survivors := disk.survivors + {Some(p)});
      NewChain(digest, ruleHash, before, disk, id);
      if steps == 4 { return false; }
      SyncStoreKeeps(digest, ruleHash, disk, disk.(lockSynced := true, survivors := {disk.pointer}));
      disk := disk.(lockSynced := true, survivors := {disk.pointer});
      return true;
    }

    // `promote`: the revision is synced in place before it is moved.
    method Promote(id: string, steps: nat) returns (done: bool)
      requires Valid() && id in disk.attempts && id !in disk.accepted && Promoted(id, disk.attempts[id])
      requires ParentOf(disk.attempts[id].result.value) == disk.pointer
      modifies this
      ensures Valid() && id in disk.whole
      ensures (!done && disk == old(disk).(whole := disk.whole)) || PromotedOnly(old(disk), disk, id)
      ensures disk.pointer == old(disk).pointer || OneLonger(digest, old(disk), disk, id)
      ensures done ==> disk.pointer == Some(Pointer(id, digest(old(disk).attempts[id].result.value)))
      ensures steps >= 6 && id !in old(disk).temps ==> done
    {
      SyncTreeKeeps(digest, ruleHash, disk, id, disk.(whole := disk.whole + {id}));
      disk := disk.(whole := disk.whole + {id});
      if steps == 0 { return false; }
      done := Install(id, steps - 1);
    }

    // A new build is entered among those under the lock, or not.
    method Enter(request: Request)
      requires Building(request.version, BoundHash(ruleHash, disk))
      requires request.revision !in disk.attempts && request.revision !in disk.accepted
      modifies this
      ensures Building(request.version, BoundHash(ruleHash, disk))
      ensures disk == old(disk).(bound := Entered(old(disk), request.revision), whole := old(disk).whole - {request.revision})
    {
      var id := request.revision;
      EnterKeeps(digest, ruleHash, disk, id, request.version, BoundHash(ruleHash, disk),
                 disk.(bound := Entered(disk, id), whole := disk.whole - {id}));
      disk := disk.(bound := Entered(disk, id), whole := disk.whole - {id});
    }

    // One attempt of a new revision, entered first.
    method RunEntered(request: Request, rules: string, x: Execution, steps: nat)
      returns (left: nat, record: Option<Record>)
      requires Building(request.version, BoundHash(ruleHash, disk))
      requires request.revision !in disk.attempts && request.revision !in disk.accepted
      modifies this
      ensures Valid() && Ran(old(disk), disk, request.revision)
      ensures Follows(old(disk), disk, request.revision) && RecordsKept(ruleHash, old(disk), disk)
      ensures record.Some? ==>
                && record.value == RecordFor(ruleHash, old(disk), request, x)
                && disk.attempts[request.revision] == Finished(request, rules, x, record.value)
      ensures steps >= 8 ==> record.Some? && left >= steps - 8
    {
      ghost var before := disk;
      Enter(request);
      ghost var entered := disk;
      left, record := RunAttempt(request, rules, x, steps);
      FollowsAttempt(ruleHash, before, entered, disk, request.revision);
    }

    // What becomes of a finished run, in terms of the store that it found: a promotion when it was
    // accepted, and nothing otherwise.
    method Conclude(id: string, record: Record, steps: nat, ghost found: Disk) returns (done: bool)
      requires Valid() && id !in found.attempts && id !in found.accepted && Ran(found, disk, id)
      requires disk.attempts[id].result == Holds(record) && record.revision == id
      requires record.status == Accepted ==> Promoted(id, disk.attempts[id]) && ParentOf(record) == disk.pointer
      requires Follows(found, disk, id) && RecordsKept(ruleHash, found, disk)
      modifies this
      ensures Valid() && Follows(found, disk, id) && RecordsKept(ruleHash, found, disk)
      ensures disk.lock == found.lock && disk.bound == old(disk).bound
      ensures disk.pointer == found.pointer || OneLonger(digest, found, disk, id)
      ensures done ==> Recorded(digest, found, disk, old(disk).attempts[id])
      ensures record.status != Accepted ==> disk == old(disk)
      ensures steps >= 6 && id !in found.temps ==> done
    {
      done := true;
      if record.status == Accepted {
        ghost var middle := disk;
        done := Promote(id, steps);
        Settled(digest, ruleHash, found, middle, disk, id);
      }
    }

    // The attempt and, when it was accepted, its promotion.
    method RunAndPromote(request: Request, rules: string, x: Execution, steps: nat) returns (outcome: Outcome)
      requires Building(request.version, BoundHash(ruleHash, disk))
      requires request.revision !in disk.attempts && request.revision !in disk.accepted && ParentMatches(disk, request)
      modifies this
      ensures Valid() && Follows(old(disk), disk, request.revision) && !outcome.Refused?
      ensures disk.lock == old(disk).lock && (request.revision in disk.bound <==> disk.lock.Holds?)
      ensures Passed(x) || (disk.pointer == old(disk).pointer && disk.accepted == old(disk).accepted)
      ensures RecordsKept(ruleHash, old(disk), disk)
      ensures disk.pointer == old(disk).pointer || OneLonger(digest, old(disk), disk, request.revision)
      ensures outcome.Done? ==> outcome.record == RecordFor(ruleHash, old(disk), request, x)
      ensures outcome.Done? ==> Recorded(digest, old(disk), disk, Finished(request, rules, x, outcome.record))
      ensures outcome.Done? && outcome.record.status != Accepted ==> disk.lockSynced == old(disk).lockSynced
      ensures steps >= MAX_STEPS - 2 && request.revision !in old(disk).temps ==> outcome.Done?
    {
      ghost var before := disk;
      var left, record := RunEntered(request, rules, x, steps);
      if record.None? {
        return Stopped;
      }
      ReadyToPromote(ruleHash, before, request, rules, x, record.value);
      var done := Conclude(request.revision, record.value, left, before);
      return if done then Done(record.value) else Stopped;
    }

    // The rules of this build: the lock's, or the provided ones, which then become the lock.
    method SettleRules(request: Request, steps: nat) returns (rules: string, left: nat, alive: bool)
      requires Valid() && HistoryAllows(ruleHash, disk, request)
      modifies this
      ensures Valid() && SameHistory(old(disk), disk) && rules == RulesFor(old(disk), request)
      ensures disk.lock == SettledLock(old(disk), request, steps) && (disk.lock == old(disk).lock || disk.lockSynced == alive)
      ensures if old(disk).lock.Absent? && request.provided.Some? then alive <==> steps >= 2 else alive
      ensures alive ==> Building(request.version, BoundHash(ruleHash, disk)) && left >= steps - 2
    {
      AllowedHistory(digest, ruleHash, disk, request);
      left, alive := steps, true;
      rules := RulesFor(disk, request);
      if disk.lock.Absent? && request.provided.Some? {
        left, alive := LockRules(rules, left);
      }
    }

    // The checks before the attempt; None when they pass.
    method Check(request: Request, steps: nat) returns (rules: string, left: nat, stop: Option<Outcome>)
      requires Valid()
      modifies this
      ensures Valid() && SameHistory(old(disk), disk)
      ensures HistoryAllows(ruleHash, old(disk), request) ==>
                disk.lock == SettledLock(old(disk), request, steps) && (disk.lock == old(disk).lock || disk.lockSynced == (steps >= 2))
      ensures !HistoryAllows(ruleHash, old(disk), request) ==> disk == old(disk)
      ensures stop == Some(Stopped) <==>
                HistoryAllows(ruleHash, old(disk), request) && old(disk).lock.Absent? && request.provided.Some? && steps < 2
      ensures stop == None || (stop == Some(Refused) && !Admissible(digest, ruleHash, old(disk), request)) || stop == Some(Stopped)
      ensures stop == None ==> Admissible(digest, ruleHash, old(disk), request) && rules == RulesFor(old(disk), request)
      ensures stop == None ==> Building(request.version, BoundHash(ruleHash, disk)) && left >= steps - 2
    {
      rules, left := EMPTY_RULES, steps;
      if !HistoryAllows(ruleHash, disk, request) {
        return rules, left, Some(Refused);
      }
      ghost var before := disk;
      var alive;
      rules, left, alive := SettleRules(request, steps);
      if !alive {
        return rules, left, Some(Stopped);
      }
      if request.revision in disk.attempts || request.revision in disk.accepted || !ParentMatches(disk, request) {
        return rules, left, Some(Refused);
      }
      if !ParentAgrees(digest, ruleHash, disk, rules) {
        return rules, left, Some(Refused);
      }
      return rules, left, None;
    }

    // A build of which the checks have passed, in terms of the store it found.
    method Proceed(request: Request, rules: string, x: Execution, steps: nat, ghost found: Disk) returns (outcome: Outcome)
      requires Building(request.version, BoundHash(ruleHash, disk))
      requires request.revision !in disk.attempts && request.revision !in disk.accepted && ParentMatches(disk, request)
      requires SameHistory(found, disk) && (disk.lock == found.lock || NothingRecorded(found))
      modifies this
      ensures Valid() && Follows(found, disk, request.revision) && RecordsKept(ruleHash, found, disk) && !outcome.Refused?
      ensures disk.pointer == found.pointer || OneLonger(digest, found, disk, request.revision)
      ensures outcome.Done? ==>
                && outcome.record == RecordFor(ruleHash, found.(lock := disk.lock), request, x)
                && Recorded(digest, found, disk, Finished(request, rules, x, outcome.record))
                && (request.revision in disk.bound <==> disk.lock.Holds?)
      ensures Passed(x) || (disk.pointer == found.pointer && disk.accepted == found.accepted)
      ensures disk.lock == old(disk).lock
      ensures outcome.Done? && outcome.record.status != Accepted ==> disk.lockSynced == old(disk).lockSynced
      ensures steps >= MAX_STEPS - 2 && request.revision !in found.temps ==> outcome.Done?
    {
      ghost var settled := disk;
      outcome := RunAndPromote(request, rules, x, steps);
      SettledAndRun(digest, ruleHash, found, settled, disk, request.revision);
      RecordBefore(ruleHash, found, settled, request, x);
      if outcome.Done? {
        RecordedBefore(digest, found, settled, disk, Finished(request, rules, x, outcome.record));
      }
    }

    // `build`, stopped after `steps` filesystem actions if it has more of them.
    method Build(request: Request, x: Execution, steps: nat) returns (outcome: Outcome)
      requires Valid()
      modifies this
      ensures Valid() && Follows(old(disk), disk, request.revision)
      ensures outcome.Refused? ==> !Admissible(digest, ruleHash, old(disk), request) && SameHistory(old(disk), disk)
      ensures outcome.Done? ==> Admissible(digest, ruleHash, old(disk), request)
      ensures outcome.Done? ==> outcome.record == RecordFor(ruleHash, old(disk).(lock := disk.lock), request, x)
      ensures outcome.Done? ==>
                Recorded(digest, old(disk), disk, Finished(request, RulesFor(old(disk), request), x, outcome.record))
      ensures outcome.Done? ==> Describes(outcome.record, old(disk), request, x)
      ensures outcome.Done? ==>
                Frozen(Finished(request, RulesFor(old(disk), request), x, outcome.record), disk.lock, request, x)
      // Nothing is accepted, and last_good.json stays, unless the run passed.
      ensures Passed(x) || (disk.pointer == old(disk).pointer && disk.accepted == old(disk).accepted)
      ensures outcome.Done? ==> (request.revision in disk.bound <==> disk.lock.Holds?)
      ensures RecordsKept(ruleHash, old(disk), disk)
      ensures disk.pointer == old(disk).pointer || OneLonger(digest, old(disk), disk, request.revision)
      // How far it gets: with enough actions it finishes; after two it has only created the lock.
      ensures Admissible(digest, ruleHash, old(disk), request) && steps >= MAX_STEPS && request.revision !in old(disk).temps ==>
                outcome.Done? && disk.lock == SettledLock(old(disk), request, steps)
      ensures HistoryAllows(ruleHash, old(disk), request) && old(disk).lock.Absent? && request.provided.Some? && steps == 1 ==>
                SameHistory(old(disk), disk) && disk.lock == Holds(request.provided.value) && !disk.lockSynced
      ensures outcome.Done? && outcome.record.status != Accepted && !old(disk).lock.Absent? ==>
                disk.lockSynced == old(disk).lockSynced
    {
      ghost var before := disk;
      var rules, left, stop := Check(request, steps);
      if stop.Some? {
        RecordsSettled(ruleHash, before, disk, request.revision);
        return stop.value;
      }
      RulesInForce(before, request, steps);
      outcome := Proceed(request, rules, x, left, before);
    }
  }

  // A result on disk whose build found the rules locked: it records them when the rules are beside
  // it, and only then unless a power loss took them; an accepted one always does.
  lemma RecordsTheLock(digest: Record -> Hash, ruleHash: string -> Hash, d: Disk, id: string, dir: Directory)
    requires Sound(digest, ruleHash, d) && id in d.bound && dir.result.Holds?
    requires (id in d.attempts && dir == d.attempts[id]) || (id in d.accepted && dir == d.accepted[id])
    ensures dir.rules.Holds? ==> LockHash(dir).Some? && (d.lock.Holds? ==> LockHash(dir).value == ruleHash(d.lock.value))
    ensures RulesBeside(d.attempts) ==> (LockHash(dir).Some? <==> dir.rules.Holds?)
    ensures id in d.accepted && dir == d.accepted[id] ==> LockHash(dir).Some? && dir.rules.Holds?
  {
    var hash :| RulesBound(ruleHash, d, hash);
    assert Obeys(dir, hash);
  }

  // Once recorded rules have lost their lock, no build is let in.
  lemma LostRulesRefuse(ruleHash: string -> Hash, d: Disk, request: Request)
    requires !Covered(ruleHash, d)
    ensures !HistoryAllows(ruleHash, d, request)
  {
  }

  lemma RunLasts(ruleHash: string -> Hash, d: Disk, e: Disk, id: string)
    requires Follows(d, e, id) && RecordsKept(ruleHash, d, e)
    ensures Lasting(d, e) && Unbroken(ruleHash, d, e)
  {
  }

  lemma LossLasts(d: Disk, e: Disk)
    requires AfterPowerLoss(d, e)
    ensures Lasting(d, e)
  {
    assert Kept(e) == e.accepted;
  }

  // ---- Runs ----

  datatype Event = Run(request: Request, x: Execution, steps: nat) | Loss(after: Disk)

  predicate AllRuns(events: seq<Event>) { forall i :: 0 <= i < |events| ==> events[i].Run? }

  lemma RunsBefore(events: seq<Event>, i: nat)
    requires i < |events|
    ensures AllRuns(events[..i + 1]) <==> AllRuns(events[..i]) && events[i].Run?
  {
    assert forall j :: 0 <= j < i ==> events[..i + 1][j] == events[..i][j];
    assert events[..i + 1][i] == events[i];
  }

  lemma Onward(ruleHash: string -> Hash, a: Disk, b: Disk, c: Disk)
    requires Lasting(a, b) && Lasting(b, c)
    ensures Lasting(a, c) && (Unbroken(ruleHash, a, b) && Unbroken(ruleHash, b, c) ==> Unbroken(ruleHash, a, c))
  {
  }

  // A passed run of this revision.
  predicate PassedRun(e: Event, id: string) { e.Run? && e.request.revision == id && Passed(e.x) }

  // Every accepted revision was there, or is the revision of a run that passed.
  predicate FromPassedRuns(d: Disk, e: Disk, events: seq<Event>) {
    forall id :: id in e.accepted ==> id in d.accepted || exists i :: 0 <= i < |events| && PassedRun(events[i], id)
  }

  lemma OneMoreEvent(a: Disk, b: Disk, c: Disk, events: seq<Event>, e: Event)
    requires FromPassedRuns(a, b, events)
    requires forall id :: id in c.accepted ==> id in b.accepted || PassedRun(e, id)
    ensures FromPassedRuns(a, c, events + [e])
  {
    forall id | id in c.accepted && id !in a.accepted
      ensures exists i :: 0 <= i < |events + [e]| && PassedRun((events + [e])[i], id)
    {
      if id in b.accepted {
        var i :| 0 <= i < |events| && PassedRun(events[i], id);
        assert (events + [e])[i] == events[i];
      } else {
        assert (events + [e])[|events|] == e;
      }
    }
  }

  // One event; a loss that could not leave this state does not happen.
  method Happen(store: Store, e: Event)
    requires store.Valid()
    modifies store
    ensures store.Valid() && Lasting(old(store.disk), store.disk)
    ensures e.Run? ==> Unbroken(store.ruleHash, old(store.disk), store.disk)
    ensures forall id :: id in store.disk.accepted ==> id in old(store.disk).accepted || PassedRun(e, id)
  {
    ghost var before := store.disk;
    match e
    case Run(request, x, steps) =>
      var _ := store.Build(request, x, steps);
      RunLasts(store.ruleHash, before, store.disk, request.revision);
    case Loss(after) =>
      if AfterPowerLoss(store.disk, after) {
        LossLasts(before, after);
        store.PowerLoss(after);
      }
  }

  // Builds stopped anywhere and power losses, in any order: the store stays sound, and what was
  // durable, lock or accepted revision, is never lost or replaced. Without a power loss the same
  // holds of every lock and revision, and every recorded rule hash has its lock. Only runs that
  // passed are ever accepted.
  method Replay(store: Store, events: seq<Event>)
    requires store.Valid()
    modifies store
    ensures store.Valid()
    ensures store.disk.pointer.Some? ==>
              exists chain :: Linked(store.digest, store.disk.accepted, chain, store.disk.pointer.value)
                           && NoRepeats(chain) && EndsAtRoot(store.disk.accepted, chain)
    ensures Lasting(old(store.disk), store.disk)
    ensures AllRuns(events) ==> Unbroken(store.ruleHash, old(store.disk), store.disk)
    ensures FromPassedRuns(old(store.disk), store.disk, events)
  {
    ghost var start := store.disk;
    for i := 0 to |events|
      invariant store.Valid()
      invariant Lasting(start, store.disk) && (AllRuns(events[..i]) ==> Unbroken(store.ruleHash, start, store.disk))
      invariant FromPassedRuns(start, store.disk, events[..i])
    {
      ghost var before := store.disk;
      Happen(store, events[i]);
      RunsBefore(events, i);
      assert events[..i + 1] == events[..i] + [events[i]];
      OneMoreEvent(start, before, store.disk, events[..i], events[i]);
      Onward(store.ruleHash, start, before, store.disk);
    }
    assert events[..|events|] == events;
    if store.disk.pointer.Some? {
      PointerIsSafe(store.digest, store.ruleHash, store.disk);
    }
  }

  // A build is stopped after it wrote the lock and before it synced it; the next one finds the lock,
  // leaves it unsynced and records it.
  method LockNotSynced(digest: Record -> Hash, ruleHash: string -> Hash, rules: string) returns (store: Store)
    ensures fresh(store) && store.Valid() && store.ruleHash == ruleHash
    ensures store.disk.lock == Holds(rules) && !store.disk.lockSynced && "2" in store.disk.attempts
    ensures LockHash(store.disk.attempts["2"]) == Some(ruleHash(rules))
  {
    store := new Store(digest, ruleHash);
    var first, second := Request("1", None, 1, Some(rules)), Request("2", None, 1, None);
    var x := Execution(5, "", Rejected);
    var _ := store.Build(first, x, 1);
    var outcome := store.Build(second, x, MAX_STEPS);
    assert outcome.Done? && LockHash(store.disk.attempts["2"]) == Some(ruleHash(rules));
  }

  // Then the power is lost, and with it the lock.
  method LockIsLost(digest: Record -> Hash, ruleHash: string -> Hash, rules: string) returns (store: Store)
    ensures store.Valid() && !Covered(ruleHash, store.disk)
    ensures store.disk.lock.Absent? && "2" in store.disk.attempts
            && LockHash(store.disk.attempts["2"]) == Some(ruleHash(rules))
    ensures forall request :: !HistoryAllows(ruleHash, store.disk, request)
  {
    store := LockNotSynced(digest, ruleHash, rules);
    store.PowerLoss(WithoutLock(store.disk));
    forall request ensures !HistoryAllows(ruleHash, store.disk, request) {
      LostRulesRefuse(ruleHash, store.disk, request);
    }
  }

  // A build that fails before it wrote the rules leaves a result that does not record the lock.
  method EarlyFailure(digest: Record -> Hash, ruleHash: string -> Hash, rules: string) returns (store: Store)
    ensures store.Valid() && store.disk.lock == Holds(rules)
    ensures "1" in store.disk.bound && "1" in store.disk.attempts
    ensures store.disk.attempts["1"].result.Holds? && LockHash(store.disk.attempts["1"]) == None
  {
    store := new Store(digest, ruleHash);
    var outcome := store.Build(Request("1", None, 1, Some(rules)), Execution(2, "", Rejected), MAX_STEPS);
    assert outcome.Done? && outcome.record.status == NeedsReview;
  }

  // `accepted_bindings` on a store that only builds wrote: it succeeds exactly when the chain
  // has at most 256 revisions.
  method BindingsOfStore(store: Store) returns (bindings: Option<map<string, Hash>>)
    requires store.Valid()
    ensures store.disk.pointer.None? ==> bindings == Some(map[])
    ensures store.disk.pointer.Some? ==>
              forall chain :: Linked(store.digest, store.disk.accepted, chain, store.disk.pointer.value)
                          ==> (bindings.Some? <==> |chain| <= MAX_HISTORY)
  {
    bindings := AcceptedBindings(store.digest, store.disk.accepted, store.disk.pointer);
    if store.disk.pointer.Some? {
      ChainDecides(store.digest, store.ruleHash, store.disk);
    }
  }

  lemma ChainDecides(digest: Record -> Hash, ruleHash: string -> Hash, d: Disk)
    requires Sound(digest, ruleHash, d) && d.pointer.Some?
    ensures forall chain :: Linked(digest, d.accepted, chain, d.pointer.value)
              ==> ((exists c :: Readable(digest, d.accepted, c, d.pointer.value)) <==> |chain| <= MAX_HISTORY)
  {
    PointerIsSafe(digest, ruleHash, d);
    var kept :| Linked(digest, d.accepted, kept, d.pointer.value) && NoRepeats(kept);
    forall chain | Linked(digest, d.accepted, chain, d.pointer.value)
      ensures (exists c :: Readable(digest, d.accepted, c, d.pointer.value)) <==> |chain| <= MAX_HISTORY
    {
      ChainIsUnique(digest, d.accepted, chain, kept, d.pointer.value);
      if c :| Readable(digest, d.accepted, c, d.pointer.value) {
        ChainIsUnique(digest, d.accepted, c, kept, d.pointer.value);
      }
      assert |chain| <= MAX_HISTORY ==> Readable(digest, d.accepted, kept, d.pointer.value);
    }
  }

  // Only the lock and its durability may differ.
  predicate SameHistory(d: Disk, m: Disk) {
    && m.attempts == d.attempts && m.accepted == d.accepted && m.pointer == d.pointer
    && m.synced == d.synced && m.temps == d.temps && m.whole == d.whole && m.bound == d.bound
    && (d.lock.Absent? || (m.lock == d.lock && m.lockSynced == d.lockSynced))
  }

  lemma SettledFirst(digest: Record -> Hash, d: Disk, m: Disk, e: Disk, id: string)
    requires SameHistory(d, m) && Follows(m, e, id)
    ensures Follows(d, e, id) && (OneLonger(digest, m, e, id) ==> OneLonger(digest, d, e, id))
  {
    assert Kept(m) == Kept(d);
  }

  // The lock after the rules were settled.
  function SettledLock(d: Disk, request: Request, steps: nat): File<string> {
    if d.lock.Absent? && request.provided.Some? then if steps == 0 then Torn else Holds(request.provided.value) else d.lock
  }

  // The rules of a build are those of the lock that is in force after it, or none.
  lemma RulesInForce(d: Disk, request: Request, steps: nat)
    requires !d.lock.Torn? && (d.lock.Absent? && request.provided.Some? ==> steps > 0)
    ensures var lock := SettledLock(d, request, steps);
            RulesFor(d, request) == if lock.Holds? then lock.value else EMPTY_RULES
  {
  }

  // A build keeps every recorded hash covered, and the rules beside every result that records them.
  predicate RecordsKept(ruleHash: string -> Hash, d: Disk, e: Disk) {
    (Covered(ruleHash, d) ==> Covered(ruleHash, e)) && (RulesBeside(d.attempts) ==> RulesBeside(e.attempts))
  }

  lemma RecordsSettled(ruleHash: string -> Hash, d: Disk, m: Disk, id: string)
    requires SameHistory(d, m) && (m.lock == d.lock || NothingRecorded(d))
    ensures RecordsKept(ruleHash, d, m) && Follows(d, m, id)
  {
    assert Kept(m) == Kept(d);
  }

  // A build that settled the rules and then ran.
  lemma SettledAndRun(digest: Record -> Hash, ruleHash: string -> Hash, d: Disk, m: Disk, e: Disk, id: string)
    requires SameHistory(d, m) && (m.lock == d.lock || NothingRecorded(d))
    requires Follows(m, e, id) && RecordsKept(ruleHash, m, e)
    requires e.pointer == m.pointer || OneLonger(digest, m, e, id)
    ensures Follows(d, e, id) && RecordsKept(ruleHash, d, e) && (e.pointer == d.pointer || OneLonger(digest, d, e, id))
  {
    RecordsSettled(ruleHash, d, m, id);
    SettledFirst(digest, d, m, e, id);
  }

  lemma RecordedBefore(digest: Record -> Hash, d: Disk, m: Disk, e: Disk, dir: Directory)
    requires SameHistory(d, m) && Recorded(digest, m, e, dir)
    ensures Recorded(digest, d, e, dir)
  {
  }

  lemma RecordBefore(ruleHash: string -> Hash, d: Disk, m: Disk, request: Request, x: Execution)
    requires SameHistory(d, m)
    ensures RecordFor(ruleHash, m, request, x) == RecordFor(ruleHash, d.(lock := m.lock), request, x)
  {
  }

  // The state after the attempt of a new revision, which may be entered under the lock.
  lemma FollowsAttempt(ruleHash: string -> Hash, d: Disk, m: Disk, e: Disk, id: string)
    requires id !in d.attempts && id !in d.accepted && m == d.(bound := m.bound, whole := m.whole) && OneAttempt(m, e, id)
    requires forall k :: k != id ==> (k in m.bound <==> k in d.bound)
    requires LockHash(e.attempts[id]).Some? ==>
               e.lock.Holds? && LockHash(e.attempts[id]).value == ruleHash(e.lock.value) && e.attempts[id].rules.Holds?
    ensures Follows(d, e, id) && RecordsKept(ruleHash, d, e)
  {
    assert Kept(e) == Kept(d);
    if Covered(ruleHash, d) && d.lock.Holds? {
      assert RecordOnly(d.attempts, ruleHash(d.lock.value)) && RecordOnly(d.accepted, ruleHash(d.lock.value));
      assert RecordOnly(e.attempts, ruleHash(e.lock.value)) && RecordOnly(e.accepted, ruleHash(e.lock.value));
    }
  }

  // And after its promotion.
  lemma FollowsPromotion(d: Disk, m: Disk, e: Disk, id: string)
    requires id !in d.attempts && id !in d.accepted && Follows(d, m, id)
    requires id in m.attempts && PromotedOnly(m, e, id) && m.lock == d.lock && m.accepted == d.accepted
    requires e.pointer == d.pointer || (e.pointer.Some? && e.pointer.value.revision == id)
    ensures Follows(d, e, id)
  {
    forall k | k in Kept(d) ensures k in Kept(e) && Kept(e)[k] == Kept(d)[k] {
      assert k in Kept(m);
    }
  }

  lemma PromotionRecords(ruleHash: string -> Hash, m: Disk, e: Disk, id: string)
    requires id in m.attempts && PromotedOnly(m, e, id)
    ensures RecordsKept(ruleHash, m, e)
  {
    if Covered(ruleHash, m) && !NothingRecorded(m) {
      assert RecordOnly(e.attempts, ruleHash(e.lock.value)) && RecordOnly(e.accepted, ruleHash(e.lock.value));
    }
  }

  lemma ReadyToPromote(ruleHash: string -> Hash, d: Disk, request: Request, rules: string, x: Execution, record: Record)
    requires ParentMatches(d, request) && record == RecordFor(ruleHash, d, request, x)
    ensures record.revision == request.revision && (record.status == Accepted <==> Passed(x))
    ensures Passed(x) ==> Promoted(request.revision, Finished(request, rules, x, record)) && ParentOf(record) == d.pointer
  {
  }

  // The attempt and its promotion together.
  lemma Settled(digest: Record -> Hash, ruleHash: string -> Hash, d: Disk, m: Disk, e: Disk, id: string)
    requires id !in d.attempts && id !in d.accepted && Follows(d, m, id) && RecordsKept(ruleHash, d, m)
    requires id in m.attempts && (e == m.(whole := e.whole) || PromotedOnly(m, e, id))
    requires m.lock == d.lock && m.accepted == d.accepted && m.pointer == d.pointer
    requires e.pointer == m.pointer || OneLonger(digest, m, e, id)
    ensures Follows(d, e, id) && RecordsKept(ruleHash, d, e)
    ensures e.pointer == d.pointer || OneLonger(digest, d, e, id)
  {
    if PromotedOnly(m, e, id) {
      FollowsPromotion(d, m, e, id);
      PromotionRecords(ruleHash, m, e, id);
    } else {
      assert Kept(e) == Kept(m);
    }
  }

  // What was durable is as it was.
  predicate Lasting(d: Disk, e: Disk) {
    && Grown(Kept(d), Kept(e))
    && (d.lockSynced && !d.lock.Absent? ==> e.lock == d.lock && e.lockSynced)
  }

  // Every lock and accepted revision is as it was, and recorded hashes stay covered.
  predicate Unbroken(ruleHash: string -> Hash, d: Disk, e: Disk) {
    (d.lock.Absent? || e.lock == d.lock) && Grown(d.accepted, e.accepted) && RecordsKept(ruleHash, d, e)
  }

  // Where the directory of a finished build is, and what the pointer then says.
  predicate Recorded(digest: Record -> Hash, d: Disk, e: Disk, dir: Directory) {
    && dir.result.Holds?
    && var r := dir.result.value;
       if r.status == Accepted then
         e.pointer == Some(Pointer(r.revision, digest(r))) && r.revision in e.accepted && e.accepted[r.revision] == dir
       else
         && e.pointer == d.pointer && e.accepted == d.accepted
         && r.revision in e.attempts && e.attempts[r.revision] == dir
  }

  // The hash that results of this build may record.
  function BoundHash(ruleHash: string -> Hash, d: Disk): Hash {
    if d.lock.Holds? then ruleHash(d.lock.value) else ""
  }

  function RecordFor(ruleHash: string -> Hash, d: Disk, request: Request, x: Execution): Record {
    Record(request.revision, request.parent, if d.pointer.Some? then Some(d.pointer.value.hash) else None,
           if x.stage >= 5 then x.verdict else NeedsReview,
           if x.stage >= 4 && d.lock.Holds? then Some(ruleHash(d.lock.value)) else None, x.evidence)
  }

  function Inputs(request: Request, rules: string, stage: nat): Directory {
    Directory(if stage >= 2 then Holds(request.version) else if stage == 1 then Torn else Absent,
              if stage >= 4 then Holds(rules) else if stage == 3 then Torn else Absent, "", Absent)
  }

  // The attempt when result.json has been written.
  function Finished(request: Request, rules: string, x: Execution, record: Record): Directory {
    Inputs(request, rules, x.stage).(evidence := x.evidence, result := Holds(record))
  }

  // Nothing but the attempt of this revision differs.
  predicate OneAttempt(d: Disk, e: Disk, id: string) {
    id in e.attempts && e == d.(attempts := d.attempts[id := e.attempts[id]])
  }

  // A run of this revision: only its attempt differs, and whether it found the rules locked.
  predicate Ran(d: Disk, e: Disk, id: string) {
    && e.lock == d.lock && e.lockSynced == d.lockSynced && e.accepted == d.accepted && e.synced == d.synced
    && e.temps == d.temps && e.pointer == d.pointer && e.survivors == d.survivors
    && id in e.attempts && (id in e.bound <==> d.lock.Holds?)
    && e.attempts == d.attempts[id := e.attempts[id]]
  }

  predicate PromotedOnly(d: Disk, e: Disk, id: string)
    requires id in d.attempts
  {
    && e.attempts == d.attempts - {id} && e.accepted == d.accepted[id := d.attempts[id]]
    && e.lock == d.lock && (d.lockSynced ==> e.lockSynced) && e.bound == d.bound && d.accepted.Keys * d.synced <= e.synced
  }

  // The new pointer's chain is the old one's with this revision in front.
  ghost predicate OneLonger(digest: Record -> Hash, d: Disk, e: Disk, id: string) {
    && e.pointer.Some? && e.pointer.value.revision == id
    && (d.pointer.None? ==> Linked(digest, e.accepted, [id], e.pointer.value))
    && forall chain :: d.pointer.Some? && Linked(digest, d.accepted, chain, d.pointer.value)
                   ==> Linked(digest, e.accepted, [id] + chain, e.pointer.value)
  }

  lemma AllowedHistory(digest: Record -> Hash, ruleHash: string -> Hash, d: Disk, request: Request)
    requires Sound(digest, ruleHash, d) && HistoryAllows(ruleHash, d, request)
    ensures OneVersion(d, request.version) && RulesBound(ruleHash, d, BoundHash(ruleHash, d))
  {
    var hash :| RulesBound(ruleHash, d, hash);
    assert BoundObey(d, hash);
  }

  // So on a sound store neither parent check refuses a build that the earlier checks allow.
  lemma ParentAlwaysAgrees(digest: Record -> Hash, ruleHash: string -> Hash, d: Disk, request: Request)
    requires Sound(digest, ruleHash, d) && HistoryAllows(ruleHash, d, request)
    ensures ParentAgrees(digest, ruleHash, d, RulesFor(d, request))
  {
    if d.pointer.Some? {
      PointerIsSafe(digest, ruleHash, d);
    }
  }

  // No file that a build reads is torn.
  predicate NothingTorn(d: Disk) {
    && !d.lock.Torn?
    && (forall id :: id in d.attempts ==> !d.attempts[id].policy.Torn? && !d.attempts[id].result.Torn?)
    && (forall id :: id in d.accepted ==> !d.accepted[id].policy.Torn? && !d.accepted[id].result.Torn?)
  }

  // Some directory holds a policy of another version, or none where version 2 needs one.
  predicate OtherVersion(dirs: Directories, version: nat) {
    exists id :: id in dirs && match dirs[id].policy
                               case Absent => version == 2
                               case Torn => false
                               case Holds(v) => v != version
  }

  // On a sound store a build is admitted if and only if no file is torn, the history is short
  // enough and of this policy version, recorded rules still have their lock, the request brings no
  // other rules, names a new revision and the last good one as its parent.
  lemma AdmittedIff(digest: Record -> Hash, ruleHash: string -> Hash, d: Disk, request: Request)
    requires Sound(digest, ruleHash, d)
    ensures Admissible(digest, ruleHash, d, request) <==>
              && NothingTorn(d) && |d.attempts| + |d.accepted| <= 512
              && !OtherVersion(d.attempts, request.version) && !OtherVersion(d.accepted, request.version)
              && Covered(ruleHash, d)
              && (d.lock.Holds? && request.provided.Some? ==> ruleHash(request.provided.value) == ruleHash(d.lock.value))
              && request.revision !in d.attempts.Keys + d.accepted.Keys
              && (d.pointer == None ==> request.parent == None)
              && (d.pointer.Some? ==> request.parent == Some(d.pointer.value.revision))
  {
    HistoryAdmitted(ruleHash, d, request);
    if HistoryAllows(ruleHash, d, request) {
      ParentAlwaysAgrees(digest, ruleHash, d, request);
    }
  }

  lemma HistoryAdmitted(ruleHash: string -> Hash, d: Disk, request: Request)
    ensures HistoryAllows(ruleHash, d, request) <==>
              && NothingTorn(d) && |d.attempts| + |d.accepted| <= 512
              && !OtherVersion(d.attempts, request.version) && !OtherVersion(d.accepted, request.version)
              && Covered(ruleHash, d)
              && (d.lock.Holds? && request.provided.Some? ==> ruleHash(request.provided.value) == ruleHash(d.lock.value))
  {
    VersionsAdmitted(d.attempts, request.version);
    VersionsAdmitted(d.accepted, request.version);
    LockAdmitted(ruleHash, d, request.provided);
  }

  lemma LockAdmitted(ruleHash: string -> Hash, d: Disk, provided: Option<string>)
    ensures LockAllows(ruleHash, d, provided) <==>
              && !d.lock.Torn? && Covered(ruleHash, d)
              && (d.lock.Holds? && provided.Some? ==> ruleHash(provided.value) == ruleHash(d.lock.value))
  {
  }

  lemma VersionsAdmitted(dirs: Directories, version: nat)
    ensures DirectoriesAllow(dirs, version) <==>
              && !OtherVersion(dirs, version)
              && forall id :: id in dirs ==> !dirs[id].policy.Torn? && !dirs[id].result.Torn?
  {
  }

  lemma NewPointerIsAnchored(digest: Record -> Hash, ruleHash: string -> Hash, d: Disk, e: Disk, id: string)
    requires Sound(digest, ruleHash, d) && id in d.attempts && id !in d.accepted && Promoted(id, d.attempts[id])
    requires ParentOf(d.attempts[id].result.value) == d.pointer
    requires e.accepted == d.accepted[id := d.attempts[id]] && Kept(e) == e.accepted
    ensures Anchored(digest, Kept(e), Pointer(id, digest(d.attempts[id].result.value)))
  {
    var p := Pointer(id, digest(d.attempts[id].result.value));
    if d.pointer.Some? {
      PointerIsSafe(digest, ruleHash, d);
      var chain :| Linked(digest, d.accepted, chain, d.pointer.value) && NoRepeats(chain);
      ChainExtends(digest, d.accepted, e.accepted, chain, id, d.pointer.value);
      assert Linked(digest, Kept(e), [id] + chain, p);
    } else {
      assert Linked(digest, Kept(e), [id], p);
    }
  }

  lemma NewChain(digest: Record -> Hash, ruleHash: string -> Hash, d: Disk, e: Disk, id: string)
    requires Sound(digest, ruleHash, d) && id in d.attempts && id !in d.accepted && Promoted(id, d.attempts[id])
    requires ParentOf(d.attempts[id].result.value) == d.pointer
    requires e.accepted == d.accepted[id := d.attempts[id]]
    requires e.pointer == Some(Pointer(id, digest(d.attempts[id].result.value)))
    ensures OneLonger(digest, d, e, id)
  {
    if d.pointer.Some? {
      PointerIsSafe(digest, ruleHash, d);
      var kept :| Linked(digest, d.accepted, kept, d.pointer.value) && NoRepeats(kept);
      forall chain | Linked(digest, d.accepted, chain, d.pointer.value)
        ensures Linked(digest, e.accepted, [id] + chain, e.pointer.value)
      {
        ChainIsUnique(digest, d.accepted, chain, kept, d.pointer.value);
        ChainExtends(digest, d.accepted, e.accepted, kept, id, d.pointer.value);
      }
    }
  }
}
