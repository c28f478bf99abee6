// What a project store holds on disk, and the hash chain from its last good revision
// (experimental_modeling/controller.py:30-35, 94-117, 188-424; review_server.py:53-68).
module StoreHistory {
  import opened Options

  type Hash = string

  // A JSON file is created empty, then filled and synced; a crash in between leaves it torn.
  datatype File<+T> = Absent | Torn | Holds(value: T)

  datatype Status = Accepted | Rejected | NeedsReview

  // result.json; `evidence` stands for the digests of the other files of the revision.
  datatype Record = Record(revision: string, parent: Option<string>, parentHash: Option<Hash>, status: Status,
                           lockHash: Option<Hash>, evidence: string)

  // One directory under attempts/ or accepted/: policy version, rules, other files, result.
  datatype Directory = Directory(policy: File<nat>, rules: File<string>, evidence: string, result: File<Record>)

  type Directories = map<string, Directory>

  // last_good.json
  datatype Pointer = Pointer(revision: string, hash: Hash)

  // `synced` and `lockSynced` say which directory entries a power loss cannot take away, and
  // `survivors` which pointers it can leave behind; `whole` holds the revisions whose files and
  // entries are all synced. `bound` is history: the revisions whose build found the rules locked.
  datatype Disk = Disk(lock: File<string>, lockSynced: bool, attempts: Directories, accepted: Directories,
                       synced: set<string>, temps: map<string, File<Pointer>>, pointer: Option<Pointer>,
                       survivors: set<Option<Pointer>>, whole: set<string>, bound: set<string>)

  // ---- The chain ----

  predicate HasAccepted(accepted: Directories, id: string) {
    id in accepted && accepted[id].result.Holds?
    && accepted[id].result.value.revision == id && accepted[id].result.value.status == Accepted
  }

  function RecordOf(accepted: Directories, id: string): Record
    requires HasAccepted(accepted, id)
  {
    accepted[id].result.value
  }

  predicate Unbound(r: Record) { r.parent.None? || r.parentHash.None? }

  // p names an accepted revision whose result has the recorded hash.
  predicate Names(digest: Record -> Hash, accepted: Directories, p: Pointer) {
    HasAccepted(accepted, p.revision) && digest(RecordOf(accepted, p.revision)) == p.hash
  }

  function Before(accepted: Directories, p: Pointer): Pointer
    requires HasAccepted(accepted, p.revision) && !Unbound(RecordOf(accepted, p.revision))
  {
    var r := RecordOf(accepted, p.revision);
    Pointer(r.parent.value, r.parentHash.value)
  }

  // The revisions from p back to one with no bound parent, each with the hash its child recorded.
  predicate Linked(digest: Record -> Hash, accepted: Directories, chain: seq<string>, p: Pointer)
    decreases |chain|
  {
    && chain != [] && chain[0] == p.revision && Names(digest, accepted, p)
    && if Unbound(RecordOf(accepted, p.revision)) then |chain| == 1
       else Linked(digest, accepted, chain[1..], Before(accepted, p))
  }

  predicate NoRepeats(chain: seq<string>) { forall i, j :: 0 <= i < j < |chain| ==> chain[i] != chain[j] }

  ghost predicate Anchored(digest: Record -> Hash, accepted: Directories, p: Pointer) {
    exists chain :: Linked(digest, accepted, chain, p) && NoRepeats(chain)
  }

  // walked leads from p to here.
  predicate Walked(digest: Record -> Hash, accepted: Directories, walked: seq<string>, p: Pointer, here: Pointer)
    decreases |walked|
  {
    if walked == [] then p == here
    else
      && walked[0] == p.revision && Names(digest, accepted, p) && !Unbound(RecordOf(accepted, p.revision))
      && Walked(digest, accepted, walked[1..], Before(accepted, p), here)
  }

  lemma {:induction false} WalkOn(digest: Record -> Hash, accepted: Directories, walked: seq<string>, p: Pointer,
                                  here: Pointer)
    requires Walked(digest, accepted, walked, p, here) && Names(digest, accepted, here)
    requires !Unbound(RecordOf(accepted, here.revision))
    ensures Walked(digest, accepted, walked + [here.revision], p, Before(accepted, here))
    decreases |walked|
  {
    if walked == [] {
      assert (walked + [here.revision])[1..] == [];
    } else {
      WalkOn(digest, accepted, walked[1..], Before(accepted, p), here);
      assert (walked + [here.revision])[1..] == walked[1..] + [here.revision];
    }
  }

  // Every chain from p goes through the revisions already walked.
  lemma {:induction false} ChainContinues(digest: Record -> Hash, accepted: Directories, walked: seq<string>,
                                          p: Pointer, here: Pointer, chain: seq<string>)
    requires Walked(digest, accepted, walked, p, here) && Linked(digest, accepted, chain, p)
    ensures walked <= chain && Linked(digest, accepted, chain[|walked|..], here)
    decreases |walked|
  {
    if walked != [] {
      ChainContinues(digest, accepted, walked[1..], Before(accepted, p), here, chain[1..]);
      assert chain[1..][|walked| - 1..] == chain[|walked|..];
      assert chain == [chain[0]] + chain[1..] && walked == [walked[0]] + walked[1..];
    } else {
      assert chain[0..] == chain;
    }
  }

  lemma {:induction false} ChainFrom(digest: Record -> Hash, accepted: Directories, walked: seq<string>,
                                     p: Pointer, here: Pointer, rest: seq<string>)
    requires Walked(digest, accepted, walked, p, here) && Linked(digest, accepted, rest, here)
    ensures Linked(digest, accepted, walked + rest, p)
    decreases |walked|
  {
    if walked == [] {
      assert walked + rest == rest;
    } else {
      ChainFrom(digest, accepted, walked[1..], Before(accepted, p), here, rest);
      assert (walked + rest)[1..] == walked[1..] + rest;
    }
  }

  // A pointer has at most one chain.
  lemma {:induction false} ChainIsUnique(digest: Record -> Hash, accepted: Directories, a: seq<string>,
                                         b: seq<string>, p: Pointer)
    requires Linked(digest, accepted, a, p) && Linked(digest, accepted, b, p)
    ensures a == b
    decreases |a|
  {
    if !Unbound(RecordOf(accepted, p.revision)) {
      ChainIsUnique(digest, accepted, a[1..], b[1..], Before(accepted, p));
      assert a == [a[0]] + a[1..] && b == [b[0]] + b[1..];
    }
  }

  const MAX_HISTORY := 256

  predicate Readable(digest: Record -> Hash, accepted: Directories, chain: seq<string>, p: Pointer) {
    Linked(digest, accepted, chain, p) && NoRepeats(chain) && |chain| <= MAX_HISTORY
  }

  // The walk stops for good: at a repeated revision, a broken link, or after 256 revisions.
  predicate Stuck(digest: Record -> Hash, accepted: Directories, walked: seq<string>, here: Pointer) {
    here.revision in walked || !Names(digest, accepted, here) || |walked| >= MAX_HISTORY
  }

  lemma StuckHasNoChain(digest: Record -> Hash, accepted: Directories, walked: seq<string>, p: Pointer, here: Pointer)
    requires Walked(digest, accepted, walked, p, here) && Stuck(digest, accepted, walked, here)
    ensures forall chain :: !Readable(digest, accepted, chain, p)
  {
    forall chain | Linked(digest, accepted, chain, p) ensures !(NoRepeats(chain) && |chain| <= MAX_HISTORY) {
      ChainContinues(digest, accepted, walked, p, here, chain);
      assert chain[|walked|] == chain[|walked|..][0] == here.revision;
      if here.revision in walked {
        var k :| 0 <= k < |walked| && walked[k] == here.revision;
        assert chain[k] == chain[|walked|];
      }
    }
  }

  // What the bindings must be: every revision of the chain with its hash, and nothing else.
  ghost predicate Binds(digest: Record -> Hash, accepted: Directories, chain: seq<string>, bindings: map<string, Hash>) {
    && (forall id :: id in bindings <==> id in chain)
    && forall id :: id in chain ==> HasAccepted(accepted, id) && bindings[id] == digest(RecordOf(accepted, id))
  }

  // `accepted_bindings` on any store: it succeeds exactly when the pointer has an unrepeated
  // chain of at most 256 revisions.
  method AcceptedBindings(digest: Record -> Hash, accepted: Directories, pointer: Option<Pointer>)
    returns (bindings: Option<map<string, Hash>>)
    ensures pointer.None? ==> bindings == Some(map[])
    ensures pointer.Some? ==>
              (bindings.Some? <==> exists chain :: Readable(digest, accepted, chain, pointer.value))
    ensures pointer.Some? && bindings.Some? ==>
              forall chain :: Linked(digest, accepted, chain, pointer.value)
                          ==> Binds(digest, accepted, chain, bindings.value)
  {
    if pointer.None? {
      return Some(map[]);
    }
    ghost var p := pointer.value;
    ghost var walked := [];
    var found := map[];
    var revision, expected := pointer.value.revision, pointer.value.hash;
    for i := 0 to MAX_HISTORY
      invariant |walked| == i && NoRepeats(walked) && Binds(digest, accepted, walked, found)
      invariant Walked(digest, accepted, walked, p, Pointer(revision, expected))
    {
      ghost var here := Pointer(revision, expected);
      if revision in found || !HasAccepted(accepted, revision) || digest(RecordOf(accepted, revision)) != expected {
        StuckHasNoChain(digest, accepted, walked, p, here);
        return None;
      }
      found := found[revision := expected];
      var r := RecordOf(accepted, revision);
      if r.parent.None? || r.parentHash.None? {
        assert Linked(digest, accepted, [revision], here);
        ChainFrom(digest, accepted, walked, p, here, [revision]);
        ghost var chain := walked + [revision];
        assert Readable(digest, accepted, chain, p) && Binds(digest, accepted, chain, found);
        forall other | Linked(digest, accepted, other, p) ensures other == chain {
          ChainIsUnique(digest, accepted, other, chain, p);
        }
        return Some(found);
      }
      WalkOn(digest, accepted, walked, p, here);
      walked := walked + [revision];
      revision, expected := r.parent.value, r.parentHash.value;
    }
    StuckHasNoChain(digest, accepted, walked, p, Pointer(revision, expected));
    return None;
  }

  // ---- Growing stores ----

  predicate Grown(a: Directories, b: Directories) { forall id :: id in a ==> id in b && b[id] == a[id] }

  lemma {:induction false} ChainStays(digest: Record -> Hash, a: Directories, b: Directories, chain: seq<string>,
                                      p: Pointer)
    requires Linked(digest, a, chain, p) && Grown(a, b)
    ensures Linked(digest, b, chain, p)
    decreases |chain|
  {
    if !Unbound(RecordOf(a, p.revision)) {
      ChainStays(digest, a, b, chain[1..], Before(a, p));
    }
  }

  lemma AnchorStays(digest: Record -> Hash, a: Directories, b: Directories, p: Pointer)
    requires Anchored(digest, a, p) && Grown(a, b)
    ensures Anchored(digest, b, p)
  {
    var chain :| Linked(digest, a, chain, p) && NoRepeats(chain);
    ChainStays(digest, a, b, chain, p);
  }

  lemma {:induction false} ChainIsInside(digest: Record -> Hash, accepted: Directories, chain: seq<string>, p: Pointer)
    requires Linked(digest, accepted, chain, p)
    ensures forall id :: id in chain ==> HasAccepted(accepted, id)
    decreases |chain|
  {
    if !Unbound(RecordOf(accepted, p.revision)) {
      ChainIsInside(digest, accepted, chain[1..], Before(accepted, p));
      assert chain == [chain[0]] + chain[1..];
    }
  }

  // The bound parent of a record, as a pointer.
  function ParentOf(r: Record): Option<Pointer> {
    if Unbound(r) then None else Some(Pointer(r.parent.value, r.parentHash.value))
  }

  // A new revision on top of the old pointer makes the chain one revision longer.
  lemma ChainExtends(digest: Record -> Hash, a: Directories, b: Directories, chain: seq<string>, id: string,
                     prior: Pointer)
    requires Linked(digest, a, chain, prior) && NoRepeats(chain) && Grown(a, b) && id !in a
    requires HasAccepted(b, id) && ParentOf(RecordOf(b, id)) == Some(prior)
    ensures Linked(digest, b, [id] + chain, Pointer(id, digest(RecordOf(b, id)))) && NoRepeats([id] + chain)
  {
    ChainStays(digest, a, b, chain, prior);
    ChainIsInside(digest, a, chain, prior);
    var p := Pointer(id, digest(RecordOf(b, id)));
    assert Before(b, p) == prior;
    assert ([id] + chain)[1..] == chain;
    assert id !in chain;
  }
}
