// Finding and freezing a process tree (service/src/hbcb_service/launcher.py:137-160, 186-206).
module ProcessTree {
  import opened Reachability

  const MAX_PIDS := 4096
  const PASSES := 8

  type Pid = nat

  type Parents = map<Pid, Pid>

  // ---- One snapshot ----

  predicate Visible(self: Pid, pid: Pid) { pid > 1 && pid != self }

  predicate ChildOf(parents: Parents, a: Pid, b: Pid) { b in parents && parents[b] == a }

  ghost function AnyChild(parents: Parents): (Pid, Pid) -> bool {
    (a: Pid, b: Pid) => ChildOf(parents, a, b)
  }

  // The child relation the search follows: it drops pid 1 and below and the supervisor itself.
  ghost function VisibleChild(parents: Parents, self: Pid): (Pid, Pid) -> bool {
    (a: Pid, b: Pid) => ChildOf(parents, a, b) && Visible(self, b)
  }

  ghost function Children(parents: Parents, root: Pid): set<Pid> {
    set b | b in parents && parents[b] == root
  }

  ghost function VisibleChildren(parents: Parents, self: Pid, root: Pid): set<Pid> {
    set b | b in parents && parents[b] == root && Visible(self, b)
  }

  ghost predicate Descends(parents: Parents, root: Pid, v: Pid) {
    Reachable(AnyChild(parents), Children(parents, root), v)
  }

  ghost predicate VisiblyDescends(parents: Parents, self: Pid, root: Pid, v: Pid) {
    Reachable(VisibleChild(parents, self), VisibleChildren(parents, self, root), v)
  }

  method ChildMap(parents: Parents) returns (children: map<Pid, seq<Pid>>)
    ensures forall a, b :: (a in children && b in children[a]) <==> ChildOf(parents, a, b)
  {
    children := map[];
    var rest := parents.Keys;
    while rest != {}
      invariant rest <= parents.Keys
      invariant forall a, b :: (a in children && b in children[a]) <==> ChildOf(parents, a, b) && b !in rest
      decreases rest
    {
      var pid :| pid in rest;
      var parent := parents[pid];
      var siblings := if parent in children then children[parent] else [];
      children := children[parent := siblings + [pid]];
      rest := rest - {pid};
    }
  }

  lemma FullSubset(s: set<Pid>, t: set<Pid>)
    requires s <= t && |s| >= |t|
    ensures s == t
  {
    assert t == s + (t - s) && s !! t - s;
    assert |t - s| == 0;
  }

  lemma VisibleStep(parents: Parents, self: Pid, root: Pid, pid: Pid)
    requires pid in parents && Visible(self, pid)
    requires parents[pid] == root || VisiblyDescends(parents, self, root, parents[pid])
    ensures VisiblyDescends(parents, self, root, pid)
  {
    ghost var step, first := VisibleChild(parents, self), VisibleChildren(parents, self, root);
    if parents[pid] == root {
      ReachesItself(step, first, pid);
    } else {
      assert step(parents[pid], pid);
      ReachesNext(step, first, parents[pid], pid);
    }
  }

  ghost predicate ClosedBelow(parents: Parents, self: Pid, root: Pid, found: set<Pid>, pending: seq<Pid>) {
    forall a, b :: (a == root || a in found) && ChildOf(parents, a, b) && Visible(self, b)
      ==> b in found || b in pending
  }

  lemma ClosedBelowIsTree(parents: Parents, self: Pid, root: Pid, found: set<Pid>)
    requires ClosedBelow(parents, self, root, found, [])
    requires forall v :: v in found ==> VisiblyDescends(parents, self, root, v)
    ensures forall v :: v in found <==> VisiblyDescends(parents, self, root, v)
  {
    ghost var step, first := VisibleChild(parents, self), VisibleChildren(parents, self, root);
    forall b | b in first ensures b in found {
      assert ChildOf(parents, root, b);
    }
    assert Closed(step, found);
    IsReachableSet(step, first, found);
  }

  // Nothing outside the tree is ever reported; within the snapshot bound nothing is missed, on
  // cyclic snapshots too.
  method Descendants(parents: Parents, root: Pid, self: Pid) returns (found: set<Pid>)
    ensures forall v :: v in found ==> VisiblyDescends(parents, self, root, v)
    ensures |parents| <= MAX_PIDS ==> forall v :: v in found <==> VisiblyDescends(parents, self, root, v)
  {
    var children := ChildMap(parents);
    found := {};
    var pending := if root in children then children[root] else [];
    while pending != [] && |found| < MAX_PIDS
      invariant found <= parents.Keys
      invariant forall v :: v in found ==> VisiblyDescends(parents, self, root, v)
      invariant forall v :: v in pending ==> v in parents && (parents[v] == root || parents[v] in found)
      invariant ClosedBelow(parents, self, root, found, pending)
      decreases parents.Keys - found, |pending|
    {
      var pid := pending[|pending| - 1];
      ghost var before := pending;
      pending := pending[..|pending| - 1];
      assert before == pending + [pid];
      if pid in found || pid <= 1 || pid == self {
        continue;
      }
      VisibleStep(parents, self, root, pid);
      found := found + {pid};
      if pid in children {
        pending := pending + children[pid];
      }
    }
    if |parents| <= MAX_PIDS {
      if pending != [] {
        FullSubset(found, parents.Keys);
      }
      ClosedBelowIsTree(parents, self, root, found);
    }
  }

  // ---- The freeze protocol ----

  // `used` holds every process ID handed out so far: IDs are not recycled while the tree is frozen.
  datatype World = World(parents: Parents, stopped: set<Pid>, used: set<Pid>)

  // What the other processes may do: fork unless stopped, or exit and leave orphans to `heir`.
  datatype Event = Fork(source: Pid, child: Pid) | Exit(pid: Pid, heir: Pid)

  // `heir` is met on the way up from p within the given number of steps.
  predicate Above(parents: Parents, heir: Pid, p: Pid, steps: nat)
    decreases steps
  {
    p in parents && (parents[p] == heir || (steps > 0 && Above(parents, heir, parents[p], steps - 1)))
  }

  function Orphaned(parents: Parents, pid: Pid, heir: Pid): Parents {
    map b | b in parents && b != pid :: if parents[b] == pid then heir else parents[b]
  }

  // An event that the kernel would not allow leaves the world unchanged.
  function Happens(w: World, self: Pid, e: Event): World {
    match e
    case Fork(source, child) =>
      if source in w.parents && source !in w.stopped && child !in w.used && child > 1
      then World(w.parents[child := source], w.stopped, w.used + {child})
      else w
    case Exit(pid, heir) =>
      if pid in w.parents && pid != self && (heir <= 1 || Above(w.parents, heir, pid, |w.parents|))
      then World(Orphaned(w.parents, pid, heir), w.stopped - {pid}, w.used)
      else w
  }

  function Run(w: World, self: Pid, events: seq<Event>): World
    decreases |events|
  {
    if events == [] then w else Run(Happens(w, self, events[0]), self, events[1..])
  }

  function Stop(w: World, pid: Pid): World {
    if pid in w.parents then w.(stopped := w.stopped + {pid}) else w
  }

  // The supervisor lives outside the tree, and no process of the tree is numbered 1 or below.
  ghost predicate Sane(w: World, root: Pid, self: Pid) {
    && root > 1 && root in w.used && self != root && {0, 1} <= w.used
    && w.parents.Keys <= w.used && self in w.parents
    && (forall b :: b in w.parents ==> w.parents[b] in w.used)
    && w.stopped <= w.used
    && forall v :: v == root || Descends(w.parents, root, v) ==> Visible(self, v)
  }

  // Every live descendant is known and stopped, and so is the root while it lives.
  ghost predicate Frozen(w: World, root: Pid, known: set<Pid>) {
    && (root in w.parents ==> root in w.stopped)
    && forall v :: Descends(w.parents, root, v) ==> v in known && v in w.stopped
  }

  ghost function Tree(parents: Parents, root: Pid): set<Pid> {
    set v | v in parents && Descends(parents, root, v)
  }

  lemma {:induction false} DescendantsAreListed(parents: Parents, root: Pid, v: Pid)
    requires Descends(parents, root, v)
    ensures v in parents
  {
    assert Closed(AnyChild(parents), parents.Keys);
    ReachStaysInside(AnyChild(parents), Children(parents, root), parents.Keys, v);
  }

  lemma ChildDescends(parents: Parents, root: Pid, a: Pid, b: Pid)
    requires ChildOf(parents, a, b) && (a == root || Descends(parents, root, a))
    ensures Descends(parents, root, b)
  {
    if a == root {
      ReachesItself(AnyChild(parents), Children(parents, root), b);
    } else {
      assert AnyChild(parents)(a, b);
      ReachesNext(AnyChild(parents), Children(parents, root), a, b);
    }
  }

  // Going up from p to an ancestor inside the tree stays inside the tree.
  lemma {:induction false} BelowDescends(parents: Parents, root: Pid, heir: Pid, p: Pid, steps: nat)
    requires Above(parents, heir, p, steps) && (heir == root || Descends(parents, root, heir))
    ensures Descends(parents, root, p)
    decreases steps
  {
    if parents[p] == heir {
      ChildDescends(parents, root, heir, p);
    } else {
      BelowDescends(parents, root, heir, parents[p], steps - 1);
      ChildDescends(parents, root, parents[p], p);
    }
  }

  // If the children of the root and of every member of s lie in s, the whole tree lies in s.
  lemma TreeWithin(parents: Parents, root: Pid, s: set<Pid>, v: Pid)
    requires forall a, b :: (a == root || a in s) && ChildOf(parents, a, b) ==> b in s
    requires Descends(parents, root, v)
    ensures v in s
  {
    forall b | b in Children(parents, root) ensures b in s {
      assert ChildOf(parents, root, b);
    }
    assert Closed(AnyChild(parents), s);
    ReachStaysInside(AnyChild(parents), Children(parents, root), s, v);
  }

  lemma ExitKeepsTree(w: World, root: Pid, self: Pid, pid: Pid, heir: Pid, v: Pid)
    requires Sane(w, root, self) && pid in w.parents
    requires heir <= 1 || Above(w.parents, heir, pid, |w.parents|)
    requires Descends(Orphaned(w.parents, pid, heir), root, v)
    ensures Descends(w.parents, root, v) && v != pid
  {
    var after := Orphaned(w.parents, pid, heir);
    var s := Tree(w.parents, root);
    forall a, b | (a == root || a in s) && ChildOf(after, a, b) ensures b in s {
      if w.parents[b] == pid {
        BelowDescends(w.parents, root, heir, pid, |w.parents|);
        ChildDescends(w.parents, root, pid, b);
      } else {
        ChildDescends(w.parents, root, a, b);
      }
    }
    TreeWithin(after, root, s, v);
    DescendantsAreListed(after, root, v);
  }

  lemma ForkKeepsTree(w: World, root: Pid, source: Pid, child: Pid, v: Pid)
    requires w.parents.Keys <= w.used && child !in w.used && root in w.used && source in w.parents
    requires forall b :: b in w.parents ==> w.parents[b] in w.used
    requires Descends(w.parents[child := source], root, v)
    ensures Descends(w.parents, root, v) || (v == child && (source == root || Descends(w.parents, root, source)))
  {
    var after := w.parents[child := source];
    var inside := source == root || Descends(w.parents, root, source);
    var s := Tree(w.parents, root) + if inside then {child} else {};
    forall a, b | (a == root || a in s) && ChildOf(after, a, b) ensures b in s {
      if b != child {
        assert a in w.used;
        ChildDescends(w.parents, root, a, b);
      }
    }
    TreeWithin(after, root, s, v);
  }

  lemma EventKeepsSane(w: World, root: Pid, self: Pid, e: Event)
    requires Sane(w, root, self)
    ensures Sane(Happens(w, self, e), root, self)
  {
    var after := Happens(w, self, e);
    forall v | Descends(after.parents, root, v) ensures Visible(self, v) {
      if after != w {
        match e
        case Fork(source, child) => ForkKeepsTree(w, root, source, child, v);
        case Exit(pid, heir) => ExitKeepsTree(w, root, self, pid, heir, v);
      }
    }
    if e.Exit? && after != w && Above(w.parents, e.heir, e.pid, |w.parents|) {
      AncestorUsed(w.parents, e.heir, e.pid, |w.parents|, w.used);
    }
  }

  lemma {:induction false} AncestorUsed(parents: Parents, heir: Pid, p: Pid, steps: nat, used: set<Pid>)
    requires Above(parents, heir, p, steps) && forall b :: b in parents ==> parents[b] in used
    ensures heir in used
    decreases steps
  {
    if parents[p] != heir {
      AncestorUsed(parents, heir, parents[p], steps - 1, used);
    }
  }

  // A frozen tree stays frozen whatever the other processes do.
  lemma EventKeepsFrozen(w: World, root: Pid, self: Pid, e: Event, known: set<Pid>)
    requires Sane(w, root, self) && Frozen(w, root, known)
    ensures Frozen(Happens(w, self, e), root, known)
  {
    var after := Happens(w, self, e);
    forall v | Descends(after.parents, root, v) ensures v in known && v in after.stopped {
      if after != w {
        match e
        case Fork(source, child) => ForkKeepsTree(w, root, source, child, v);
        case Exit(pid, heir) => ExitKeepsTree(w, root, self, pid, heir, v);
      }
    }
  }

  // Over any run of events.
  lemma {:induction false} RunKeeps(w: World, root: Pid, self: Pid, events: seq<Event>, known: set<Pid>)
    requires Sane(w, root, self)
    ensures Sane(Run(w, self, events), root, self)
    ensures Frozen(w, root, known) ==> Frozen(Run(w, self, events), root, known)
    decreases |events|
  {
    if events != [] {
      EventKeepsSane(w, root, self, events[0]);
      if Frozen(w, root, known) {
        EventKeepsFrozen(w, root, self, events[0], known);
      }
      RunKeeps(Happens(w, self, events[0]), root, self, events[1..], known);
    }
  }

  // Signalled processes stay stopped as long as they live.
  ghost predicate Held(w: World, pids: set<Pid>) {
    pids <= w.used && forall p :: p in pids && p in w.parents ==> p in w.stopped
  }

  lemma {:induction false} RunKeepsHeld(w: World, root: Pid, self: Pid, events: seq<Event>, pids: set<Pid>)
    requires Sane(w, root, self) && Held(w, pids)
    ensures Held(Run(w, self, events), pids)
    decreases |events|
  {
    if events != [] {
      EventKeepsSane(w, root, self, events[0]);
      RunKeepsHeld(Happens(w, self, events[0]), root, self, events[1..], pids);
    }
  }

  // In a sane world the search drops nothing that belongs to the tree.
  lemma TreeIsVisible(w: World, root: Pid, self: Pid, found: set<Pid>)
    requires Sane(w, root, self)
    requires forall v :: v in found <==> VisiblyDescends(w.parents, self, root, v)
    ensures forall v :: Descends(w.parents, root, v) ==> v in found
  {
    forall v | Descends(w.parents, root, v) ensures v in found {
      var s := set u | u in w.parents && Descends(w.parents, root, u) && u in found;
      forall a, b | (a == root || a in s) && ChildOf(w.parents, a, b) ensures b in s {
        ChildDescends(w.parents, root, a, b);
        if a == root {
          ReachesItself(VisibleChild(w.parents, self), VisibleChildren(w.parents, self, root), b);
        } else {
          assert VisibleChild(w.parents, self)(a, b);
          ReachesNext(VisibleChild(w.parents, self), VisibleChildren(w.parents, self, root), a, b);
        }
      }
      TreeWithin(w.parents, root, s, v);
    }
  }

  // What happens around the supervisor: the events that fall before action k of pass n.
  type Schedule = (nat, nat) -> seq<Event>

  // SIGSTOP to each process, with other processes running between any two signals.
  method StopAll(w0: World, pids: set<Pid>, root: Pid, self: Pid, schedule: Schedule, n: nat, ghost held: set<Pid>)
    returns (w: World)
    requires Sane(w0, root, self) && Held(w0, held) && pids <= w0.used
    ensures Sane(w, root, self) && w0.used <= w.used
    ensures Held(w, held + set p | p in pids && Visible(self, p))
    ensures pids == {} ==> w == w0
  {
    w := w0;
    var rest := pids;
    var k := 1;
    while rest != {}
      invariant rest <= pids <= w0.used <= w.used
      invariant Sane(w, root, self)
      invariant Held(w, held + set p | p in pids - rest && Visible(self, p))
      invariant rest == pids ==> w == w0
      decreases rest
    {
      var pid :| pid in rest;
      ghost var done := held + set p | p in pids - rest && Visible(self, p);
      RunKeeps(w, root, self, schedule(n, k), {});
      RunKeepsHeld(w, root, self, schedule(n, k), done);
      RunKeepsUsed(w, self, schedule(n, k));
      w := Run(w, self, schedule(n, k));
      if Visible(self, pid) {
        w := Stop(w, pid);
      }
      rest, k := rest - {pid}, k + 1;
      assert forall p :: p in held + (set p | p in pids - rest && Visible(self, p)) ==> p in done || p == pid;
    }
  }

  lemma {:induction false} RunKeepsUsed(w: World, self: Pid, events: seq<Event>)
    ensures w.used <= Run(w, self, events).used
    decreases |events|
  {
    if events != [] {
      RunKeepsUsed(Happens(w, self, events[0]), self, events[1..]);
    }
  }

  lemma HeldTreeIsFrozen(w: World, root: Pid, known: set<Pid>)
    requires Held(w, known + {root}) && forall v :: Descends(w.parents, root, v) ==> v in known
    ensures Frozen(w, root, known)
  {
    forall v | Descends(w.parents, root, v) ensures v in known && v in w.stopped {
      DescendantsAreListed(w.parents, root, v);
    }
  }

  // Stop the root, then discover and stop until two passes find nothing new. If the loop ends
  // that way, and no snapshot was cut short, the tree is frozen whatever ran in between.
  method Freeze(w0: World, root: Pid, self: Pid, schedule: Schedule)
    returns (w: World, descendants: set<Pid>, stable: bool, ghost complete: bool)
    requires Sane(w0, root, self)
    ensures Sane(w, root, self) && Held(w, descendants + {root})
    ensures stable && complete ==> Frozen(w, root, descendants)
  {
    w := StopAll(w0, {root}, root, self, schedule, 0, {});
    descendants, stable, complete := {}, false, true;
    var stablePasses := 0;
    var n := 1;
    while n <= PASSES
      invariant Sane(w, root, self) && Held(w, descendants + {root})
      invariant stablePasses <= 1
      invariant stablePasses == 1 && complete ==> Frozen(w, root, descendants)
    {
      RunKeeps(w, root, self, schedule(n, 0), descendants);
      RunKeepsHeld(w, root, self, schedule(n, 0), descendants + {root});
      w := Run(w, self, schedule(n, 0));
      var observed := Descendants(w.parents, root, self);
      complete := complete && |w.parents| <= MAX_PIDS;
      if |w.parents| <= MAX_PIDS {
        TreeIsVisible(w, root, self, observed);
      }
      forall v | v in observed ensures v in w.used && Visible(self, v) {
        VisibleIsVisible(w.parents, self, root, v);
      }
      var unseen := observed - descendants;
      ghost var held := descendants + {root};
      descendants := descendants + observed;
      if unseen == {} && complete {
        HeldTreeIsFrozen(w, root, descendants);
      }
      w := StopAll(w, unseen, root, self, schedule, n, held);
      assert held + (set p | p in unseen && Visible(self, p)) == descendants + {root};
      if unseen != {} {
        stablePasses := 0;
      } else {
        stablePasses := stablePasses + 1;
        if stablePasses >= 2 {
          stable := true;
          break;
        }
      }
      n := n + 1;
    }
  }

  lemma VisibleIsVisible(parents: Parents, self: Pid, root: Pid, v: Pid)
    requires VisiblyDescends(parents, self, root, v)
    ensures v in parents && Visible(self, v)
  {
    var s := set u | u in parents && Visible(self, u);
    ReachStaysInside(VisibleChild(parents, self), VisibleChildren(parents, self, root), s, v);
  }
}
