/** doctest's re-run traversal: one test-case body is executed again and again, each time down
    one path of nested SUBCASE blocks, until every leaf has been reached. */
module Subcases {
  import opened Basics
  import Wildcard

  datatype Signature = Signature(name: string, file: string, line: nat)

  type Path = seq<Signature>

  /** The SUBCASE statements of one block, in program order: `body` is what the first one
      guards, `next` is what follows it in the same block. */
  datatype Block = Done | Subcase(sig: Signature, body: Block, next: Block)

  /** What the reporters are told. */
  datatype Event = SubcaseStart(sig: Signature) | SubcaseEnd | TestCaseReenter

  /** The two subcase filter lists, the case flag and the depth the filters apply to. */
  datatype Filters = Filters(wanted: seq<string>, unwanted: seq<string>, caseSensitive: bool, levels: nat) {
    predicate Rejects(name: string) {
      || !Wildcard.MatchesSome(name, wanted, true, caseSensitive)
      || Wildcard.MatchesSome(name, unwanted, false, caseSensitive)
    }

    /** Whether a subcase is filtered out while `stackSize` subcases are on the stack. */
    predicate Cuts(stackSize: nat, name: string) {
      stackSize < levels && Rejects(name)
    }
  }

  // ---------------------------------------------------------------------------------------
  // Hashes
  // ---------------------------------------------------------------------------------------

  const TWO_TO_THE_64 := 0x1_0000_0000_0000_0000

  function Combine(a: nat, b: nat): nat {
    (a * 32 + b) % TWO_TO_THE_64
  }

  /** djb2 over the characters of a C string. */
  function HashString(s: string): nat {
    if s == [] then 5381
    else (HashString(s[..|s| - 1]) * 33 + s[|s| - 1] as int) % TWO_TO_THE_64
  }

  function HashSignature(sig: Signature): nat {
    Combine(Combine(HashString(sig.file), HashString(sig.name)), sig.line)
  }

  function HashPath(p: Path): nat {
    if p == [] then 0
    else Combine(HashPath(p[..|p| - 1]), HashSignature(p[|p| - 1]))
  }

  // ---------------------------------------------------------------------------------------
  // Paths of a block
  // ---------------------------------------------------------------------------------------

  predicate Among(b: Block, sig: Signature) {
    b.Subcase? && (b.sig == sig || Among(b.next, sig))
  }

  /** Sibling subcases have different signatures, at every level. */
  predicate Distinct(b: Block) {
    b.Subcase? ==> !Among(b.next, b.sig) && Distinct(b.body) && Distinct(b.next)
  }

  function Height(b: Block): nat {
    if b.Done? then 0
    else if 1 + Height(b.body) >= Height(b.next) then 1 + Height(b.body)
    else Height(b.next)
  }

  /** What is left of a block when rejected subcases are taken out with all they contain. */
  function Prune(b: Block, f: Filters): Block {
    if b.Done? then Done
    else if f.Rejects(b.sig.name) then Prune(b.next, f)
    else Subcase(b.sig, Prune(b.body, f), Prune(b.next, f))
  }

  function Under(sig: Signature, ps: seq<Path>): (r: seq<Path>)
    ensures |r| == |ps| && forall i :: 0 <= i < |ps| ==> r[i] == [sig] + ps[i]
  {
    seq(|ps|, i requires 0 <= i < |ps| => [sig] + ps[i])
  }

  /** The leaf paths of a block, depth first; a block without subcases is one empty path. */
  function Leaves(b: Block): (ps: seq<Path>)
    ensures ps != []
    decreases b, 1
  {
    if b.Done? then [[]] else LeavesFrom(b)
  }

  function LeavesFrom(b: Block): (ps: seq<Path>)
    ensures b.Subcase? ==> ps != []
    decreases b, 0
  {
    if b.Done? then [] else Under(b.sig, Leaves(b.body)) + LeavesFrom(b.next)
  }

  /** A path that ends at a subcase without inner subcases. */
  predicate IsLeaf(b: Block, p: Path) {
    if b.Done? || p == [] then b.Done? && p == []
    else if b.sig == p[0] then IsLeaf(b.body, p[1..])
    else b.next.Subcase? && IsLeaf(b.next, p)
  }

  lemma {:induction false} LeavesAreTheLeafPaths(b: Block, p: Path)
    requires Distinct(b)
    ensures p in Leaves(b) <==> IsLeaf(b, p)
    decreases b
  {
    if b.Subcase? {
      if p in Under(b.sig, Leaves(b.body)) || p in LeavesFrom(b.next) {
        LeavesFromStartAmong(b, p);
      }
      if p != [] {
        LeavesAreTheLeafPaths(b.body, p[1..]);
        LeavesAreTheLeafPaths(b.next, p);
        if p[0] == b.sig {
          if p[1..] in Leaves(b.body) {
            var i :| 0 <= i < |Leaves(b.body)| && Leaves(b.body)[i] == p[1..];
            assert Under(b.sig, Leaves(b.body))[i] == p;
          }
          if p in LeavesFrom(b.next) {
            LeavesFromStartAmong(b.next, p);
            assert false;
          }
        }
      }
    }
  }

  lemma {:induction false} LeavesFromStartAmong(b: Block, p: Path)
    requires p in LeavesFrom(b)
    ensures p != [] && Among(b, p[0])
  {
    if p !in Under(b.sig, Leaves(b.body)) {
      LeavesFromStartAmong(b.next, p);
    }
  }

  lemma {:induction false} NoLeafTwice(b: Block)
    requires Distinct(b)
    ensures forall i, j :: 0 <= i < j < |Leaves(b)| ==> Leaves(b)[i] != Leaves(b)[j]
    decreases b
  {
    if b.Subcase? {
      NoLeafTwice(b.body);
      NoLeafTwice(b.next);
      var n := |Leaves(b.body)|;
      forall i, j | 0 <= i < j < |Leaves(b)| ensures Leaves(b)[i] != Leaves(b)[j] {
        if j < n {
          assert Leaves(b)[i][1..] == Leaves(b.body)[i] && Leaves(b)[j][1..] == Leaves(b.body)[j];
        } else {
          assert Leaves(b)[j] == LeavesFrom(b.next)[j - n];
          LeavesFromStartAmong(b.next, Leaves(b)[j]);
          if i >= n {
            assert Leaves(b)[i] == Leaves(b.next)[i - n] && Leaves(b)[j] == Leaves(b.next)[j - n];
          }
        }
      }
    }
  }

  // ---------------------------------------------------------------------------------------
  // One run
  // ---------------------------------------------------------------------------------------

  /** How one run went: the path it entered, and the path it proposes for the next run. */
  datatype Outcome = Outcome(leaf: Path, next: Path)

  /** After the leaf: the first later sibling that is neither cut nor remembered as traversed. */
  function Scan(b: Block, prefix: Path, seen: set<nat>, stackSize: nat, f: Filters): Path {
    if b.Done? then []
    else if HashPath(prefix + [b.sig]) !in seen && !f.Cuts(stackSize, b.sig.name) then prefix + [b.sig]
    else Scan(b.next, prefix, seen, stackSize, f)
  }

  /** Before the leaf: what running block `b` below `prefix` does, where `target` is the part of
      the proposed path that is still to be followed. `None` when no subcase of `b` is entered. */
  function Run(b: Block, prefix: Path, target: Path, seen: set<nat>, f: Filters): Option<Outcome> {
    if b.Done? then None
    else if (target == [] || target[0] == b.sig) && !f.Cuts(|prefix|, b.sig.name) then
      var inner := Run(b.body, prefix + [b.sig], if target == [] then [] else target[1..], seen, f);
      var o := if inner.Some? then inner.value else Outcome(prefix + [b.sig], []);
      if o.next != [] then Some(o)
      else Some(o.(next := Scan(b.next, prefix, seen + {HashPath(o.leaf)}, |o.leaf|, f)))
    else Run(b.next, prefix, target, seen, f)
  }

  function Starts(p: Path): seq<Event> {
    seq(|p|, i requires 0 <= i < |p| => SubcaseStart(p[i]))
  }

  function Ends(n: nat): seq<Event> {
    seq(n, i => SubcaseEnd)
  }

  /** A run down a path opens its subcases in order and closes them all. */
  function RunEvents(p: Path): seq<Event> {
    Starts(p) + Ends(|p|)
  }

  /** The reporters' view of a whole test case. */
  function TestCaseEvents(ps: seq<Path>): seq<Event> {
    if ps == [] then []
    else if |ps| == 1 then RunEvents(ps[0])
    else RunEvents(ps[0]) + [TestCaseReenter] + TestCaseEvents(ps[1..])
  }

  lemma RunExtendsPrefix(b: Block, prefix: Path, target: Path, seen: set<nat>, f: Filters)
    ensures var r := Run(b, prefix, target, seen, f);
            r.Some? ==> |prefix| < |r.value.leaf| <= |prefix| + Height(b) && r.value.leaf[..|prefix|] == prefix
    ensures var r := Run(b, prefix, target, seen, f);
            r.Some? && r.value.next != [] ==> |prefix| < |r.value.next|
  {
    if b.Subcase? {
      if (target == [] || target[0] == b.sig) && !f.Cuts(|prefix|, b.sig.name) {
        var t := if target == [] then [] else target[1..];
        RunExtendsPrefix(b.body, prefix + [b.sig], t, seen, f);
        var inner := Run(b.body, prefix + [b.sig], t, seen, f);
        if inner.Some? {
          assert inner.value.leaf[..|prefix|] == inner.value.leaf[..|prefix| + 1][..|prefix|] == prefix;
        }
        var o := Run(b, prefix, target, seen, f).value;
        ScanExtendsPrefix(b.next, prefix, seen + {HashPath(o.leaf)}, |o.leaf|, f);
      } else {
        RunExtendsPrefix(b.next, prefix, target, seen, f);
      }
    }
  }

  lemma ScanExtendsPrefix(b: Block, prefix: Path, seen: set<nat>, stackSize: nat, f: Filters)
    ensures var r := Scan(b, prefix, seen, stackSize, f);
            r != [] ==> |r| == |prefix| + 1
  {
  }

  // ---------------------------------------------------------------------------------------
  // Filters act as if the rejected subcases were not written
  // ---------------------------------------------------------------------------------------

  const NO_FILTERS := Filters([], [], true, 0)

  ghost predicate AcceptsAll(f: Filters) {
    forall name: string :: !f.Rejects(name)
  }

  ghost predicate RejectsAll(f: Filters) {
    forall name: string :: f.Rejects(name)
  }

  /** No name is rejected, or the filters reach below everything `height` levels down. */
  ghost predicate FiltersReach(f: Filters, height: nat) {
    AcceptsAll(f) || height < f.levels
  }

  lemma {:induction false} FilteredScanIsPrunedScan(b: Block, prefix: Path, seen: set<nat>, stackSize: nat, f: Filters)
    requires FiltersReach(f, stackSize)
    ensures Scan(b, prefix, seen, stackSize, f) == Scan(Prune(b, f), prefix, seen, stackSize, NO_FILTERS)
  {
    if b.Subcase? {
      FilteredScanIsPrunedScan(b.next, prefix, seen, stackSize, f);
    }
  }

  lemma {:induction false} FilteredRunIsPrunedRun(b: Block, prefix: Path, target: Path, seen: set<nat>, f: Filters)
    requires FiltersReach(f, |prefix| + Height(b))
    ensures Run(b, prefix, target, seen, f) == Run(Prune(b, f), prefix, target, seen, NO_FILTERS)
  {
    if b.Subcase? {
      FilteredRunIsPrunedRun(b.next, prefix, target, seen, f);
      var t := if target == [] then [] else target[1..];
      FilteredRunIsPrunedRun(b.body, prefix + [b.sig], t, seen, f);
      if (target == [] || target[0] == b.sig) && !f.Cuts(|prefix|, b.sig.name) {
        var inner := Run(b.body, prefix + [b.sig], t, seen, f);
        RunExtendsPrefix(b.body, prefix + [b.sig], t, seen, f);
        var leaf := if inner.Some? then inner.value.leaf else prefix + [b.sig];
        FilteredScanIsPrunedScan(b.next, prefix, seen + {HashPath(leaf)}, |leaf|, f);
      }
    }
  }

  lemma {:induction false} PruneKeepsDistinct(b: Block, f: Filters)
    requires Distinct(b)
    ensures Distinct(Prune(b, f))
    ensures forall sig :: Among(Prune(b, f), sig) ==> Among(b, sig)
  {
    if b.Subcase? {
      PruneKeepsDistinct(b.body, f);
      PruneKeepsDistinct(b.next, f);
    }
  }

  /** Without filter lists every name is accepted, and then nothing is pruned. */
  lemma {:induction false} NothingToPrune(b: Block, f: Filters)
    requires (f.wanted == [] && f.unwanted == []) || AcceptsAll(f)
    ensures AcceptsAll(f) && Prune(b, f) == b
  {
    assert AcceptsAll(f);
    if b.Subcase? {
      NothingToPrune(b.body, f);
      NothingToPrune(b.next, f);
    }
  }

  /** The subcases a test case is meant to run: filters with no level to act on cut nothing. */
  function Wanted(b: Block, f: Filters): Block {
    if f.levels == 0 then b else Prune(b, f)
  }

  /** What the filters do, they do at every level of a test that is `height` levels deep. */
  ghost predicate Tame(f: Filters, height: nat) {
    height == 0 || f.levels == 0 || AcceptsAll(f) || RejectsAll(f) || height < f.levels
  }

  lemma {:induction false} NoLevelsNoFilters(b: Block, prefix: Path, target: Path, seen: set<nat>, f: Filters)
    requires f.levels == 0
    ensures Run(b, prefix, target, seen, f) == Run(b, prefix, target, seen, NO_FILTERS)
  {
    if b.Subcase? {
      NoLevelsNoFilters(b.next, prefix, target, seen, f);
      NoLevelsNoFilters(b.body, prefix + [b.sig], if target == [] then [] else target[1..], seen, f);
      forall seen', n { NoLevelsNoScan(b.next, prefix, seen', n, f); }
    }
  }

  lemma {:induction false} NoLevelsNoScan(b: Block, prefix: Path, seen: set<nat>, stackSize: nat, f: Filters)
    requires f.levels == 0
    ensures Scan(b, prefix, seen, stackSize, f) == Scan(b, prefix, seen, stackSize, NO_FILTERS)
  {
    if b.Subcase? {
      NoLevelsNoScan(b.next, prefix, seen, stackSize, f);
    }
  }

  lemma {:induction false} EverythingRejected(b: Block, target: Path, seen: set<nat>, f: Filters)
    requires f.levels > 0 && RejectsAll(f)
    ensures Run(b, [], target, seen, f) == None && Prune(b, f) == Done
  {
    if b.Subcase? {
      EverythingRejected(b.next, target, seen, f);
    }
  }

  /** A run with such filters is a run of the wanted subcases without any. */
  lemma TameRunIsWantedRun(b: Block, target: Path, seen: set<nat>, f: Filters)
    requires Tame(f, Height(b))
    ensures Run(b, [], target, seen, f) == Run(Wanted(b, f), [], target, seen, NO_FILTERS)
  {
    if f.levels == 0 {
      NoLevelsNoFilters(b, [], target, seen, f);
    } else if RejectsAll(f) {
      EverythingRejected(b, target, seen, f);
    } else if b.Subcase? {
      FilteredRunIsPrunedRun(b, [], target, seen, f);
    }
  }

  lemma WantedKeepsDistinct(b: Block, f: Filters)
    requires Distinct(b)
    ensures Distinct(Wanted(b, f))
  {
    PruneKeepsDistinct(b, f);
  }

  // ---------------------------------------------------------------------------------------
  // The sequence of runs
  // ---------------------------------------------------------------------------------------

  /** `target` leads to a subcase of `b`. */
  predicate Leads(b: Block, target: Path) {
    target == [] || (b.Subcase? && if b.sig == target[0] then Leads(b.body, target[1..]) else Leads(b.next, target))
  }

  /** The leaf paths from `target` on: first those under it, then all that come after it. */
  function LeavesAfter(b: Block, target: Path): seq<Path> {
    if target == [] then Leaves(b)
    else if b.Done? then []
    else if b.sig == target[0] then Under(b.sig, LeavesAfter(b.body, target[1..])) + LeavesFrom(b.next)
    else LeavesAfter(b.next, target)
  }

  /** The length of the longest common prefix. */
  function Common(p: Path, q: Path): (n: nat)
    ensures n <= |p| && n <= |q| && p[..n] == q[..n]
    ensures n < |p| && n < |q| ==> p[n] != q[n]
  {
    if p == [] || q == [] || p[0] != q[0] then 0 else 1 + Common(p[1..], q[1..])
  }

  /** The first subcase that leads to leaf `q` and not to the leaf `p` before it. */
  function Turn(p: Path, q: Path): Path {
    if Common(p, q) < |q| then q[..Common(p, q) + 1] else q
  }

  lemma TurnUnder(sig: Signature, p: Path, q: Path)
    ensures Turn([sig] + p, [sig] + q) == [sig] + Turn(p, q)
  {
    assert ([sig] + p)[1..] == p && ([sig] + q)[1..] == q;
    assert Common([sig] + p, [sig] + q) == 1 + Common(p, q);
    if Common(p, q) < |q| {
      assert ([sig] + q)[..Common(p, q) + 2] == [sig] + q[..Common(p, q) + 1];
    }
  }

  lemma {:induction false} TargetStartsAmong(b: Block, target: Path)
    requires Leads(b, target) && target != []
    ensures Among(b, target[0])
  {
    if b.sig != target[0] {
      TargetStartsAmong(b.next, target);
    }
  }

  lemma {:induction false} LeavesAfterExist(b: Block, target: Path)
    requires Leads(b, target)
    ensures LeavesAfter(b, target) != []
    ensures target != [] ==> forall p :: p in LeavesAfter(b, target) ==> p != []
    decreases b
  {
    if target != [] {
      if b.sig == target[0] {
        LeavesAfterExist(b.body, target[1..]);
        forall p | p in LeavesAfter(b, target) ensures p != [] {
          if p !in Under(b.sig, LeavesAfter(b.body, target[1..])) {
            LeavesFromStartAmong(b.next, p);
          }
        }
      } else {
        LeavesAfterExist(b.next, target);
      }
    }
  }

  /** What the proposal of a run amounts to, with `rest` the leaf paths from its target on. */
  ghost predicate ProposalIsRight(b: Block, prefix: Path, rest: seq<Path>, seen: set<nat>, next: Path) {
    // the proposal stays below the prefix, leads somewhere, and moves forward
    && (next != [] ==>
      && |prefix| < |next| && next[..|prefix|] == prefix
      && Leads(b, next[|prefix|..])
      && |LeavesAfter(b, next[|prefix|..])| < |rest|)
    // it is the next leaf's turn, unless that hash is taken, and then at least one leaf is lost
    && (|rest| == 1 ==> next == [])
    && (|rest| >= 2 ==>
      if HashPath(prefix + Turn(rest[0], rest[1])) !in seen then
        next != [] && next == prefix + Turn(rest[0], rest[1]) && LeavesAfter(b, next[|prefix|..]) == rest[1..]
      else
        next != [] ==> |LeavesAfter(b, next[|prefix|..])| < |rest| - 1)
  }

  /** The scan after leaf `leaf` (relative to `prefix`), over the siblings that follow. */
  lemma {:induction false} ScanIsRight(b: Block, prefix: Path, leaf: Path, seen: set<nat>, stackSize: nat)
    requires Distinct(b) && leaf != [] && !Among(b, leaf[0])
    ensures var next := Scan(b, prefix, seen, stackSize, NO_FILTERS);
            ProposalIsRight(b, prefix, [leaf] + LeavesFrom(b), seen, next)
  {
    if b.Subcase? {
      var rest := [leaf] + LeavesFrom(b);
      var first := Leaves(b.body)[0];
      assert rest[1] == [b.sig] + first;
      assert Common(leaf, rest[1]) == 0;
      assert Turn(leaf, rest[1]) == [b.sig];
      var turn := prefix + [b.sig];
      assert turn[|prefix|..] == [b.sig];
      assert [b.sig][1..] == [];
      assert LeavesAfter(b, [b.sig]) == LeavesFrom(b);
      ScanIsRight(b.next, prefix, leaf, seen, stackSize);
      var later := Scan(b.next, prefix, seen, stackSize, NO_FILTERS);
      if later != [] {
        TargetStartsAmong(b.next, later[|prefix|..]);
        assert LeavesAfter(b, later[|prefix|..]) == LeavesAfter(b.next, later[|prefix|..]);
      }
    }
  }

  ghost predicate RunIsRightFor(b: Block, prefix: Path, target: Path, seen: set<nat>) {
    var r := Run(b, prefix, target, seen, NO_FILTERS);
    && LeavesAfter(b, target) != []
    && r.Some? && r.value.leaf == prefix + LeavesAfter(b, target)[0]
    && ProposalIsRight(b, prefix, LeavesAfter(b, target), seen + {HashPath(r.value.leaf)}, r.value.next)
  }

  lemma LeavesAfterFirst(b: Block, target: Path)
    requires b.Subcase? && (target == [] || target[0] == b.sig)
    ensures LeavesAfter(b, target) ==
            Under(b.sig, LeavesAfter(b.body, if target == [] then [] else target[1..])) + LeavesFrom(b.next)
  {
    assert target == [] ==> LeavesAfter(b, target) == LeavesFrom(b) && LeavesAfter(b.body, []) == Leaves(b.body);
  }

  /** A run that enters the first subcase of the block, spelled out. */
  lemma RunFirst(b: Block, prefix: Path, target: Path, seen: set<nat>, inner: Outcome)
    requires b.Subcase? && (target == [] || target[0] == b.sig)
    requires var r := Run(b.body, prefix + [b.sig], if target == [] then [] else target[1..], seen, NO_FILTERS);
             inner == if r.Some? then r.value else Outcome(prefix + [b.sig], [])
    ensures var next := Scan(b.next, prefix, seen + {HashPath(inner.leaf)}, |inner.leaf|, NO_FILTERS);
            Run(b, prefix, target, seen, NO_FILTERS)
              == Some(if inner.next != [] then inner else Outcome(inner.leaf, next))
  {
    hide LeavesAfter, LeavesFrom, HashPath, Scan;
  }

  /** Past the leaf, with nothing proposed inside the first subcase. */
  lemma RunIsRightPast(b: Block, prefix: Path, target: Path, seen: set<nat>, below: seq<Path>, leaf: Path)
    requires Distinct(b) && b.Subcase? && below != []
    requires LeavesAfter(b, target) == Under(b.sig, below) + LeavesFrom(b.next)
    requires leaf == prefix + ([b.sig] + below[0])
    requires var seen' := seen + {HashPath(leaf)};
             && Run(b, prefix, target, seen, NO_FILTERS) ==
                Some(Outcome(leaf, Scan(b.next, prefix, seen', |leaf|, NO_FILTERS)))
             && (|below| >= 2 ==> HashPath(prefix + Turn([b.sig] + below[0], [b.sig] + below[1])) in seen')
    ensures RunIsRightFor(b, prefix, target, seen)
  {
    hide Run, Leads, LeavesFrom, Leaves, HashPath, Turn, Common, Scan, LeavesAfter;
    var seen' := seen + {HashPath(leaf)};
    var first := [b.sig] + below[0];
    ScanIsRight(b.next, prefix, first, seen', |leaf|);
    LiftProposalPast(b, prefix, below, [first] + LeavesFrom(b.next), seen',
                     Scan(b.next, prefix, seen', |leaf|, NO_FILTERS));
  }

  /** The run enters the first subcase of the block, which is a leaf. */
  lemma RunIsRightAtLeaf(b: Block, prefix: Path, target: Path, seen: set<nat>)
    requires Distinct(b) && b.Subcase? && b.body.Done? && Leads(b, target)
    requires target == [] || target[0] == b.sig
    ensures RunIsRightFor(b, prefix, target, seen)
  {
    var t := if target == [] then [] else target[1..];
    assert t == [] && LeavesAfter(b.body, t) == [[]];
    LeavesAfterFirst(b, target);
    RunFirst(b, prefix, target, seen, Outcome(prefix + [b.sig], []));
    assert [b.sig] + [] == [b.sig];
    RunIsRightPast(b, prefix, target, seen, [[]], prefix + [b.sig]);
  }

  /** The run enters the first subcase of the block, which has subcases of its own. */
  lemma RunIsRightInside(b: Block, prefix: Path, target: Path, seen: set<nat>)
    requires Distinct(b) && b.Subcase? && b.body.Subcase?
    requires target == [] || target[0] == b.sig
    requires RunIsRightFor(b.body, prefix + [b.sig], if target == [] then [] else target[1..], seen)
    ensures RunIsRightFor(b, prefix, target, seen)
  {
    hide Run, Leads, LeavesFrom, Leaves, HashPath, Turn, Common, Scan, LeavesAfter;
    var t := if target == [] then [] else target[1..];
    var below := LeavesAfter(b.body, t);
    var inner := Run(b.body, prefix + [b.sig], t, seen, NO_FILTERS).value;
    LeavesAfterFirst(b, target);
    RunFirst(b, prefix, target, seen, inner);
    assert inner.leaf == prefix + ([b.sig] + below[0]);
    if inner.next != [] {
      LiftProposalUnder(b, prefix, below, seen + {HashPath(inner.leaf)}, inner.next);
    } else {
      if |below| >= 2 {
        TurnUnder(b.sig, below[0], below[1]);
        assert prefix + [b.sig] + Turn(below[0], below[1]) == prefix + Turn([b.sig] + below[0], [b.sig] + below[1]);
      }
      RunIsRightPast(b, prefix, target, seen, below, inner.leaf);
    }
  }

  /** Every run without filters reaches exactly the first leaf from its target on. */
  lemma {:induction false} RunIsRight(b: Block, prefix: Path, target: Path, seen: set<nat>)
    requires Distinct(b) && b.Subcase? && Leads(b, target)
    ensures RunIsRightFor(b, prefix, target, seen)
    decreases b
  {
    if target == [] || target[0] == b.sig {
      if b.body.Done? {
        RunIsRightAtLeaf(b, prefix, target, seen);
      } else {
        RunIsRight(b.body, prefix + [b.sig], if target == [] then [] else target[1..], seen);
        RunIsRightInside(b, prefix, target, seen);
      }
    } else {
      RunIsRight(b.next, prefix, target, seen);
      RunIsRightFurther(b, prefix, target, seen);
    }
  }

  /** The run passes over the first subcase of the block. */
  lemma RunIsRightFurther(b: Block, prefix: Path, target: Path, seen: set<nat>)
    requires Distinct(b) && b.Subcase? && target != [] && target[0] != b.sig
    requires RunIsRightFor(b.next, prefix, target, seen)
    ensures RunIsRightFor(b, prefix, target, seen)
  {
    var o := Run(b.next, prefix, target, seen, NO_FILTERS).value;
    if o.next != [] {
      TargetStartsAmong(b.next, o.next[|prefix|..]);
      assert LeavesAfter(b, o.next[|prefix|..]) == LeavesAfter(b.next, o.next[|prefix|..]);
    }
    assert LeavesAfter(b, target) == LeavesAfter(b.next, target);
  }

  lemma TargetUnder(b: Block, t: Path)
    requires b.Subcase? && Leads(b.body, t)
    ensures Leads(b, [b.sig] + t)
    ensures LeavesAfter(b, [b.sig] + t) == Under(b.sig, LeavesAfter(b.body, t)) + LeavesFrom(b.next)
  {
    assert ([b.sig] + t)[1..] == t;
  }

  /** A proposal made inside the body is, one level up, a proposal below the first subcase. */
  lemma LiftProposalUnder(b: Block, prefix: Path, below: seq<Path>, seen: set<nat>, next: Path)
    requires b.Subcase? && below != [] && next != []
    requires ProposalIsRight(b.body, prefix + [b.sig], below, seen, next)
    ensures ProposalIsRight(b, prefix, Under(b.sig, below) + LeavesFrom(b.next), seen, next)
  {
    hide Leads, LeavesAfter, LeavesFrom, Leaves, HashPath, Turn, Common;
    var rest := Under(b.sig, below) + LeavesFrom(b.next);
    var t, t' := next[|prefix|..], next[|prefix| + 1..];
    assert next[..|prefix| + 1] == prefix + [b.sig];
    assert next == prefix + [b.sig] + t';
    assert t == [b.sig] + t';
    assert next[..|prefix|] == prefix;
    TargetUnder(b, t');
    assert |rest| >= 2 && rest[0] == [b.sig] + below[0] && rest[1] == [b.sig] + below[1];
    TurnUnder(b.sig, below[0], below[1]);
    var turn := Turn(below[0], below[1]);
    assert prefix + [b.sig] + turn == prefix + ([b.sig] + turn);
    if HashPath(prefix + [b.sig] + turn) !in seen {
      assert LeavesAfter(b.body, t') == below[1..];
      assert Under(b.sig, below[1..]) == Under(b.sig, below)[1..];
    }
  }

  /** A proposal made by the scan of the later siblings is one of the whole block, provided the
      scan inside the body came to nothing only because it had to. */
  lemma LiftProposalPast(b: Block, prefix: Path, below: seq<Path>, short: seq<Path>, seen: set<nat>, next: Path)
    requires Distinct(b) && b.Subcase? && below != []
    requires short == [[b.sig] + below[0]] + LeavesFrom(b.next)
    requires ProposalIsRight(b.next, prefix, short, seen, next)
    requires |below| >= 2 ==> HashPath(prefix + Turn([b.sig] + below[0], [b.sig] + below[1])) in seen
    ensures ProposalIsRight(b, prefix, Under(b.sig, below) + LeavesFrom(b.next), seen, next)
  {
    if next != [] {
      TargetStartsAmong(b.next, next[|prefix|..]);
      assert LeavesAfter(b, next[|prefix|..]) == LeavesAfter(b.next, next[|prefix|..]);
    }
    if |below| == 1 {
      assert Under(b.sig, below) + LeavesFrom(b.next) == short;
    }
  }

  /** The leaves reached by run after run, from `target` on, until a run proposes nothing. */
  ghost function Runs(b: Block, target: Path, seen: set<nat>): (ps: seq<Path>)
    requires Distinct(b) && b.Subcase? && Leads(b, target)
    ensures ps != [] && |ps| <= |LeavesAfter(b, target)|
    decreases |LeavesAfter(b, target)|
  {
    RunIsRight(b, [], target, seen);
    var o := Run(b, [], target, seen, NO_FILTERS).value;
    assert o.next != [] ==> o.next[0..] == o.next;
    [o.leaf] + if o.next == [] then [] else Runs(b, o.next, seen + {HashPath(o.leaf)})
  }

  /** The leaves a whole test case reaches; without subcases its body simply runs once. */
  ghost function TestCaseRuns(b: Block): (ps: seq<Path>)
    requires Distinct(b)
  {
    if b.Done? then [[]] else Runs(b, [], {})
  }

  /** No subcase whose turn comes hashes like a leaf that was reached before it. */
  ghost predicate NoHashTaken(ps: seq<Path>) {
    forall i, j :: 0 <= j < i < |ps| ==> HashPath(ps[j]) != HashPath(Turn(ps[i - 1], ps[i]))
  }

  ghost predicate NoHashTakenFrom(ps: seq<Path>, seen: set<nat>)
    decreases |ps|
  {
    |ps| >= 2 ==>
      && HashPath(Turn(ps[0], ps[1])) !in seen + {HashPath(ps[0])}
      && NoHashTakenFrom(ps[1..], seen + {HashPath(ps[0])})
  }

  lemma {:induction false} NoHashTakenUnfolded(ps: seq<Path>, seen: set<nat>)
    ensures NoHashTakenFrom(ps, seen) <==>
            && NoHashTaken(ps)
            && (forall i :: 0 < i < |ps| ==> HashPath(Turn(ps[i - 1], ps[i])) !in seen)
    decreases |ps|
  {
    hide HashPath, Turn, Common;
    if |ps| >= 2 {
      var tail, seen' := ps[1..], seen + {HashPath(ps[0])};
      NoHashTakenUnfolded(tail, seen');
      forall i | 0 < i < |tail|
        ensures tail[i - 1] == ps[i] && tail[i] == ps[i + 1]
      {
      }
      if NoHashTakenFrom(ps, seen) {
        forall i, j | 0 <= j < i < |ps| ensures HashPath(ps[j]) != HashPath(Turn(ps[i - 1], ps[i])) {
          if i > 1 {
            assert HashPath(Turn(tail[i - 2], tail[i - 1])) !in seen';
            if j > 0 {
              assert HashPath(tail[j - 1]) != HashPath(Turn(tail[i - 2], tail[i - 1]));
            }
          }
        }
        forall i | 0 < i < |ps| ensures HashPath(Turn(ps[i - 1], ps[i])) !in seen {
          if i > 1 {
            assert HashPath(Turn(tail[i - 2], tail[i - 1])) !in seen';
          }
        }
      }
      if NoHashTaken(ps) && forall i :: 0 < i < |ps| ==> HashPath(Turn(ps[i - 1], ps[i])) !in seen {
        assert HashPath(ps[0]) != HashPath(Turn(ps[1 - 1], ps[1]));
        forall i, j | 0 <= j < i < |tail| ensures HashPath(tail[j]) != HashPath(Turn(tail[i - 1], tail[i])) {
          assert HashPath(ps[j + 1]) != HashPath(Turn(ps[i + 1 - 1], ps[i + 1]));
        }
        forall i | 0 < i < |tail| ensures HashPath(Turn(tail[i - 1], tail[i])) !in seen' {
          assert HashPath(ps[0]) != HashPath(Turn(ps[i + 1 - 1], ps[i + 1]));
        }
      }
    }
  }

  /** The first of the runs, and what it leaves to the others. */
  lemma RunsUnfolded(b: Block, target: Path, seen: set<nat>) returns (next: Path, seen': set<nat>)
    requires Distinct(b) && b.Subcase? && Leads(b, target)
    ensures LeavesAfter(b, target) != [] && Leads(b, next)
    ensures var rest := LeavesAfter(b, target);
            && seen' == seen + {HashPath(rest[0])}
            && Runs(b, target, seen) == [rest[0]] + (if next == [] then [] else Runs(b, next, seen'))
            && (next != [] ==> |LeavesAfter(b, next)| < |rest|)
            && (|rest| == 1 ==> next == [])
            && (|rest| >= 2 ==>
              if HashPath(Turn(rest[0], rest[1])) !in seen' then next != [] && LeavesAfter(b, next) == rest[1..]
              else next != [] ==> |LeavesAfter(b, next)| < |rest| - 1)
  {
    RunIsRight(b, [], target, seen);
    var rest := LeavesAfter(b, target);
    var o := Run(b, [], target, seen, NO_FILTERS).value;
    next, seen' := o.next, seen + {HashPath(o.leaf)};
    hide Run, Leads, LeavesFrom, Leaves, HashPath, Turn, Common, Scan, LeavesAfter, Distinct;
    assert o.leaf == rest[0] && next[0..] == next;
    if |rest| >= 2 {
      assert [] + Turn(rest[0], rest[1]) == Turn(rest[0], rest[1]);
    }
  }

  lemma {:induction false} RunsReachEveryLeaf(b: Block, target: Path, seen: set<nat>)
    requires Distinct(b) && b.Subcase? && Leads(b, target)
    ensures Runs(b, target, seen) == LeavesAfter(b, target) <==> NoHashTakenFrom(LeavesAfter(b, target), seen)
    decreases |LeavesAfter(b, target)|
  {
    var next, seen' := RunsUnfolded(b, target, seen);
    hide Run, Leads, LeavesFrom, Leaves, HashPath, Turn, Common, LeavesAfter, Distinct, Runs;
    var rest := LeavesAfter(b, target);
    assert rest == [rest[0]] + rest[1..];
    if |rest| >= 2 {
      if HashPath(Turn(rest[0], rest[1])) !in seen' {
        RunsReachEveryLeaf(b, next, seen');
        if Runs(b, target, seen) == rest {
          assert Runs(b, next, seen') == Runs(b, target, seen)[1..] == rest[1..];
        }
      } else {
        assert |Runs(b, target, seen)| < |rest|;
      }
    }
  }

  /** The re-run loop reaches every leaf exactly once, depth first, if and only if no subcase
      whose turn comes hashes like a leaf reached before it. */
  lemma EveryLeafExactlyOnce(b: Block)
    requires Distinct(b)
    ensures TestCaseRuns(b) == Leaves(b) <==> NoHashTaken(Leaves(b))
    ensures |TestCaseRuns(b)| <= |Leaves(b)|
  {
    if b.Subcase? {
      RunsReachEveryLeaf(b, [], {});
      NoHashTakenUnfolded(Leaves(b), {});
    }
  }

  /** A test with two subcases, one after the other. */
  function Siblings(first: Signature, second: Signature): (b: Block)
    requires first != second
    ensures Distinct(b)
  {
    assert !Among(Done, first) && !Among(Done, second);
    var b := Subcase(second, Done, Done);
    assert !Among(b, first) && Distinct(Done) && Distinct(b);
    Subcase(first, Done, b)
  }

  /** When the only two subcases of a test hash alike, the second one is never entered. */
  lemma CollidingSiblingIsLost(first: Signature, second: Signature)
    requires first != second && HashSignature(first) == HashSignature(second)
    ensures var b := Siblings(first, second); Leaves(b) == [[first], [second]] && TestCaseRuns(b) == [[first]]
  {
    var b := Siblings(first, second);
    assert [first][..0] == [] == [second][..0];
    assert HashPath([first]) == HashPath([second]);
    TwoLeaves(first, second);
    hide HashPath, Leaves, LeavesFrom, Distinct, Siblings;
    assert Common([first], [second]) == 0 && Turn([first], [second]) == [second];
    var next, seen := RunsUnfolded(b, [], {});
    if next != [] {
      LeavesAfterExist(b, next);
    }
  }

  lemma TwoLeaves(first: Signature, second: Signature)
    requires first != second
    ensures Leaves(Siblings(first, second)) == [[first], [second]]
  {
    assert Under(first, [[]])[0] == [first] && Under(second, [[]])[0] == [second];
    var b' := Subcase(second, Done, Done);
    assert Leaves(Done) == [[]] && LeavesFrom(Done) == [];
    assert LeavesFrom(b') == [[second]];
    assert Among(b', first) == Among(Done, first) == false;
  }

  /** That happens to two sibling subcases of one file when the last characters of their names
      are neighbours in the character set and their lines are 32 apart. */
  lemma SubcaseLostToCollision(name: string, c: char, file: string, line: nat)
    requires c as int < 127
    ensures var first := Signature(name + [c + 1 as char], file, line);
            var second := Signature(name + [c], file, line + 32);
            first != second && TestCaseRuns(Siblings(first, second)) == [[first]]
  {
    var first := Signature(name + [c + 1 as char], file, line);
    var second := Signature(name + [c], file, line + 32);
    assert (name + [c + 1 as char])[..|name|] == name == (name + [c])[..|name|];
    SameHash(HashString(name) * 33 + c as int, HashString(file), line);
    assert HashSignature(first) == HashSignature(second);
    CollidingSiblingIsLost(first, second);
  }

  lemma SameHash(h: nat, file: nat, line: nat)
    ensures Combine(Combine(file, (h + 1) % TWO_TO_THE_64), line) ==
            Combine(Combine(file, h % TWO_TO_THE_64), line + 32)
  {
    var m := TWO_TO_THE_64;
    var next := (h + 1) % m;
    assert h == (h / m) * m + h % m && h + 1 == ((h + 1) / m) * m + next;
    assert next == h % m + 1 - ((h + 1) / m - h / m) * m;
    ModOfScaled(file * 32 + next, line);
    ModOfScaled(file * 32 + h % m, line + 32);
    var x := (file * 32 + next) * 32 + line;
    var k := (h + 1) / m - h / m;
    assert (file * 32 + h % m) * 32 + line + 32 == x + (32 * k) * m;
    AddMultiple(x, 32 * k);
  }

  lemma ModOfScaled(a: nat, line: nat)
    ensures ((a % TWO_TO_THE_64) * 32 + line) % TWO_TO_THE_64 == (a * 32 + line) % TWO_TO_THE_64
  {
    var m := TWO_TO_THE_64;
    assert a * 32 + line == (a % m) * 32 + line + (32 * (a / m)) * m;
    AddMultiple((a % m) * 32 + line, 32 * (a / m));
  }

  lemma {:induction false} AddMultiple(x: nat, k: nat)
    ensures (x + k * TWO_TO_THE_64) % TWO_TO_THE_64 == x % TWO_TO_THE_64
  {
    if k > 0 {
      AddMultiple(x, k - 1);
      assert x + k * TWO_TO_THE_64 == (x + (k - 1) * TWO_TO_THE_64) + TWO_TO_THE_64;
    }
  }

  // ---------------------------------------------------------------------------------------
  // The re-run loop under any filters
  // ---------------------------------------------------------------------------------------

  /** How far the loop has come: what is proposed and remembered, which paths have been entered,
      what the reporters have been told, and whether the loop has ended. */
  datatype Loop = Loop(next: Path, seen: set<nat>, leaves: seq<Path>, events: seq<Event>, ended: bool)

  const LOOP_START := Loop([], {}, [], [], false)

  function Reenter(next: Path): seq<Event> {
    if next == [] then [] else [TestCaseReenter]
  }

  /** A run that enters nothing leaves the proposal as it is. */
  function Round(b: Block, f: Filters, l: Loop): Loop {
    if l.ended then l
    else
      match Run(b, [], l.next, l.seen, f)
      case None => l.(events := l.events + Reenter(l.next), ended := l.next == [])
      case Some(o) =>
        Loop(o.next, l.seen + {HashPath(o.leaf)}, l.leaves + [o.leaf],
             l.events + RunEvents(o.leaf) + Reenter(o.next), o.next == [])
  }

  function Rounds(b: Block, f: Filters, n: nat): Loop {
    if n == 0 then LOOP_START else Round(b, f, Rounds(b, f, n - 1))
  }

  /** However far the loop has come, it has come as far as without filters in the wanted part. */
  ghost predicate ActsAsWanted(b: Block, f: Filters) {
    forall n: nat :: Rounds(b, f, n) == Rounds(Wanted(b, f), NO_FILTERS, n)
  }

  lemma {:induction false} TameRoundsAreWanted(b: Block, f: Filters, n: nat)
    requires Tame(f, Height(b))
    ensures Rounds(b, f, n) == Rounds(Wanted(b, f), NO_FILTERS, n)
  {
    if n > 0 {
      TameRoundsAreWanted(b, f, n - 1);
      var l := Rounds(b, f, n - 1);
      TameRunIsWantedRun(b, l.next, l.seen, f);
    }
  }

  function Repeat(sig: Signature, k: nat): (p: Path)
    ensures |p| == k
  {
    if k == 0 then [] else [sig] + Repeat(sig, k - 1)
  }

  /** A block inside `k` others. */
  function Nest(sig: Signature, k: nat, b: Block): (r: Block)
    ensures Distinct(b) ==> Distinct(r)
    ensures b.Subcase? ==> Height(r) == k + Height(b)
  {
    if k == 0 then b else Subcase(sig, Nest(sig, k - 1, b), Done)
  }

  lemma RepeatOnce(prefix: Path, sig: Signature, k: nat, last: Signature)
    requires k > 0
    ensures prefix + [sig] + Repeat(sig, k - 1) + [last] == prefix + Repeat(sig, k) + [last]
  {
  }

  /** The filters end just above two siblings: the run down to the first one proposes the second
      one, rejected or not. */
  lemma {:induction false} ShallowRun(good: Signature, bad: Signature, k: nat, prefix: Path, f: Filters)
    requires good != bad && !f.Rejects(good.name) && |prefix| + k + 1 == f.levels
    requires HashPath(prefix + Repeat(good, k) + [good]) != HashPath(prefix + Repeat(good, k) + [bad])
    ensures Run(Nest(good, k, Siblings(good, bad)), prefix, [], {}, f) ==
            Some(Outcome(prefix + Repeat(good, k) + [good], prefix + Repeat(good, k) + [bad]))
    decreases k
  {
    hide HashPath;
    if k == 0 {
      assert prefix + [] == prefix;
      var b' := Subcase(bad, Done, Done);
      assert Run(Done, prefix + [good], [], {}, f) == None;
      assert Scan(b', prefix, {} + {HashPath(prefix + [good])}, |prefix| + 1, f) == prefix + [bad];
    } else {
      RepeatOnce(prefix, good, k, good);
      RepeatOnce(prefix, good, k, bad);
      ShallowRun(good, bad, k - 1, prefix + [good], f);
    }
  }

  /** Without the second one, it proposes nothing. */
  lemma {:induction false} NestedRun(good: Signature, k: nat, prefix: Path)
    ensures Run(Nest(good, k, Subcase(good, Done, Done)), prefix, [], {}, NO_FILTERS) ==
            Some(Outcome(prefix + Repeat(good, k) + [good], []))
    decreases k
  {
    hide HashPath;
    if k == 0 {
      assert prefix + [] == prefix;
      assert Run(Done, prefix + [good], [], {}, NO_FILTERS) == None;
    } else {
      RepeatOnce(prefix, good, k, good);
      NestedRun(good, k - 1, prefix + [good]);
    }
  }

  lemma {:induction false} PruneNested(good: Signature, bad: Signature, k: nat, f: Filters)
    requires good != bad && f.Rejects(bad.name) && !f.Rejects(good.name)
    ensures Prune(Nest(good, k, Siblings(good, bad)), f) == Nest(good, k, Subcase(good, Done, Done))
    decreases k
  {
    if k > 0 {
      PruneNested(good, bad, k - 1, f);
    }
  }

  lemma CombineDiffers(a: nat, x: nat, y: nat)
    requires x != y && x < TWO_TO_THE_64 && y < TWO_TO_THE_64
    ensures Combine(a, x) != Combine(a, y)
  {
    var m := TWO_TO_THE_64;
    var p, q := (a * 32 + x) / m, (a * 32 + y) / m;
    assert a * 32 + x == p * m + Combine(a, x) && a * 32 + y == q * m + Combine(a, y);
    assert x - y == (p - q) * m + (Combine(a, x) - Combine(a, y));
  }

  lemma HashOfLast(p: Path, sig: Signature)
    ensures HashPath(p + [sig]) == Combine(HashPath(p), HashSignature(sig))
  {
    assert (p + [sig])[..|p|] == p;
  }

  /** A subcase of that name whose path does not collide with another one. */
  lemma FreeSignature(p: Path, name: string, taken: nat) returns (sig: Signature)
    ensures sig.name == name && HashPath(p + [sig]) != taken
  {
    var first, second := Signature(name, "", 0), Signature(name, "", 1);
    var h := Combine(HashString(""), HashString(name));
    CombineDiffers(h, 0, 1);
    assert HashSignature(first) == Combine(h, 0) && HashSignature(second) == Combine(h, 1);
    hide HashString;
    CombineDiffers(HashPath(p), Combine(h, 0), Combine(h, 1));
    HashOfLast(p, first);
    HashOfLast(p, second);
    sig := if HashPath(p + [first]) != taken then first else second;
  }

  /** Such a test, just as deep as the filters go. */
  lemma WildTest(good: Signature, bad: Signature, f: Filters) returns (b: Block)
    requires f.levels > 0 && f.Rejects(bad.name) && !f.Rejects(good.name)
    requires HashPath(Repeat(good, f.levels - 1) + [good]) != HashPath(Repeat(good, f.levels - 1) + [bad])
    ensures Distinct(b) && Height(b) == f.levels && !ActsAsWanted(b, f)
  {
    hide Filters.Rejects, HashPath, Run, Prune;
    var k := f.levels - 1;
    var p := Repeat(good, k);
    b := Nest(good, k, Siblings(good, bad));
    assert Height(Siblings(good, bad)) == 1;
    assert [] + p == p;
    ShallowRun(good, bad, k, [], f);
    PruneNested(good, bad, k, f);
    NestedRun(good, k, []);
    hide Nest, Repeat, Siblings, ActsAsWanted;
    OneRoundDiffers(b, f);
  }

  /** Filters that are not tame fail on some test of that height. */
  lemma WildFiltersFail(f: Filters, height: nat) returns (b: Block)
    requires !Tame(f, height)
    ensures Distinct(b) && Height(b) <= height && !ActsAsWanted(b, f)
  {
    hide Filters.Rejects, HashPath, ActsAsWanted, Distinct, Height;
    var accepted: string :| !f.Rejects(accepted);
    var rejected: string :| f.Rejects(rejected);
    var good := Signature(accepted, "", 0);
    var p := Repeat(good, f.levels - 1);
    var bad := FreeSignature(p, rejected, HashPath(p + [good]));
    b := WildTest(good, bad, f);
  }

  lemma OneRoundDiffers(b: Block, f: Filters)
    requires Run(b, [], [], {}, f).Some? && Run(Wanted(b, f), [], [], {}, NO_FILTERS).Some?
    requires Run(b, [], [], {}, f).value.next != Run(Wanted(b, f), [], [], {}, NO_FILTERS).value.next
    ensures !ActsAsWanted(b, f)
  {
    hide HashPath, Run, Wanted;
    assert Rounds(b, f, 0) == LOOP_START && Rounds(Wanted(b, f), NO_FILTERS, 0) == LOOP_START;
    assert Rounds(b, f, 1).next != Rounds(Wanted(b, f), NO_FILTERS, 1).next;
  }

  /** Tests of at most some height run their wanted subcases, just as if there were no others, if
      and only if the filters reach below that height, or have no level at all to act on, or treat
      all names alike. */
  lemma FiltersActAsWantedIff(f: Filters, height: nat)
    ensures (forall b :: Distinct(b) && Height(b) <= height ==> ActsAsWanted(b, f)) <==> Tame(f, height)
  {
    if Tame(f, height) {
      forall b | Distinct(b) && Height(b) <= height ensures ActsAsWanted(b, f) {
        forall n: nat ensures Rounds(b, f, n) == Rounds(Wanted(b, f), NO_FILTERS, n) {
          TameRoundsAreWanted(b, f, n);
        }
      }
    } else {
      var b := WildFiltersFail(f, height);
    }
  }

  /** A filter for the first level only is not consulted when the next subcase is chosen, which
      happens with the leaf's whole path on the stack. So a rejected subcase is proposed, and from
      then on no run enters anything or withdraws the proposal: the loop never ends. */
  lemma {:induction false} ShallowFilterNeverEnds(good: Signature, bad: Signature, f: Filters, n: nat)
    requires f.levels == 1 && f.Rejects(bad.name) && !f.Rejects(good.name)
    requires HashPath([good]) != HashPath([bad]) && n > 0
    ensures var l := Rounds(Siblings(good, bad), f, n);
            !l.ended && l.next == [bad] && l.leaves == [[good]] && l.seen == {HashPath([good])}
    decreases n
  {
    var b := Siblings(good, bad);
    var l := Rounds(b, f, n - 1);
    assert [] + Repeat(good, 0) + [good] == [good] && [] + Repeat(good, 0) + [bad] == [bad];
    hide HashPath;
    if n == 1 {
      ShallowRun(good, bad, 0, [], f);
    } else {
      ShallowFilterNeverEnds(good, bad, f, n - 1);
      var b' := Subcase(bad, Done, Done);
      assert Run(Done, [], [bad], l.seen, f) == None;
      assert Run(b', [], [bad], l.seen, f) == None;
      assert Run(b, [], [bad], l.seen, f) == None;
    }
  }

  /** One level further down, the loop does end, but too early: the outer subcase is entered once
      more, with the rejected one as the goal, is taken for a leaf, and the subcases after the
      rejected one are never run. */
  lemma {:induction false} ShallowFilterLosesLeaf(outer: Signature, good: Signature, bad: Signature, lost: Signature,
                                                  f: Filters, n: nat)
    requires f.levels == 2 && f.Rejects(bad.name)
    requires !f.Rejects(outer.name) && !f.Rejects(good.name) && !f.Rejects(lost.name)
    requires good != bad && good != lost && HashPath([outer, good]) != HashPath([outer, bad]) && n > 1
    ensures var b := Subcase(outer, Subcase(good, Done, Subcase(bad, Done, Subcase(lost, Done, Done))), Done);
            && Distinct(b) && [outer, lost] in Leaves(Wanted(b, f))
            && Rounds(b, f, n).ended && Rounds(b, f, n).leaves == [[outer, good], [outer]]
    decreases n
  {
    var lastOne := Subcase(lost, Done, Done);
    var fromBad := Subcase(bad, Done, lastOne);
    var body := Subcase(good, Done, fromBad);
    var b := Subcase(outer, body, Done);
    if n > 2 {
      ShallowFilterLosesLeaf(outer, good, bad, lost, f, n - 1);
    } else {
      LostLeafIsWanted(outer, good, bad, lost, f);
      LostLeafFirstRun(outer, good, bad, lost, f);
      LostLeafSecondRun(outer, good, bad, lost, {} + {HashPath([outer, good])}, f);
      hide HashPath, Run, Leaves, Prune, Distinct;
      assert Rounds(b, f, 1) == Round(b, f, Rounds(b, f, 0));
      assert Rounds(b, f, 1).next == [outer, bad] && Rounds(b, f, 1).leaves == [[outer, good]];
      assert Rounds(b, f, 2) == Round(b, f, Rounds(b, f, 1));
    }
  }

  lemma LostLeafIsWanted(outer: Signature, good: Signature, bad: Signature, lost: Signature, f: Filters)
    requires f.levels > 0 && f.Rejects(bad.name)
    requires !f.Rejects(outer.name) && !f.Rejects(good.name) && !f.Rejects(lost.name)
    requires good != bad && good != lost
    ensures var b := Subcase(outer, Subcase(good, Done, Subcase(bad, Done, Subcase(lost, Done, Done))), Done);
            Distinct(b) && [outer, lost] in Leaves(Wanted(b, f))
  {
    var lastOne := Subcase(lost, Done, Done);
    var fromBad := Subcase(bad, Done, lastOne);
    var body := Subcase(good, Done, fromBad);
    var b := Subcase(outer, body, Done);
    var kept := Subcase(good, Done, lastOne);
    assert Prune(Done, f) == Done && Prune(lastOne, f) == lastOne;
    assert Prune(fromBad, f) == lastOne && Prune(body, f) == kept;
    assert Wanted(b, f) == Subcase(outer, kept, Done);
    assert !Among(Done, bad) && !Among(Done, lost) && !Among(Done, good) && !Among(lastOne, bad)
           && !Among(lastOne, good);
    assert !Among(fromBad, good);
    assert Distinct(Done) && Distinct(lastOne) && Distinct(fromBad) && Distinct(body) && Distinct(kept);
    LeavesAreTheLeafPaths(Wanted(b, f), [outer, lost]);
    assert [outer, lost][1..] == [lost] && [lost][1..] == [];
    assert IsLeaf(lastOne, [lost]) && IsLeaf(kept, [lost]);
  }

  lemma LostLeafFirstRun(outer: Signature, good: Signature, bad: Signature, lost: Signature, f: Filters)
    requires f.levels == 2 && !f.Rejects(outer.name) && !f.Rejects(good.name)
    requires HashPath([outer, good]) != HashPath([outer, bad])
    ensures var b := Subcase(outer, Subcase(good, Done, Subcase(bad, Done, Subcase(lost, Done, Done))), Done);
            Run(b, [], [], {}, f) == Some(Outcome([outer, good], [outer, bad]))
  {
    hide HashPath;
    var fromBad := Subcase(bad, Done, Subcase(lost, Done, Done));
    var body := Subcase(good, Done, fromBad);
    assert [] + [outer] == [outer] && [outer] + [good] == [outer, good] && [outer] + [bad] == [outer, bad];
    assert Run(Done, [outer, good], [], {}, f) == None;
    assert Scan(fromBad, [outer], {} + {HashPath([outer, good])}, 2, f) == [outer, bad];
    assert Run(body, [outer], [], {}, f) == Some(Outcome([outer, good], [outer, bad]));
  }

  lemma LostLeafSecondRun(outer: Signature, good: Signature, bad: Signature, lost: Signature, seen: set<nat>,
                          f: Filters)
    requires f.levels == 2 && f.Rejects(bad.name) && !f.Rejects(outer.name) && !f.Rejects(lost.name) && good != bad
    ensures var b := Subcase(outer, Subcase(good, Done, Subcase(bad, Done, Subcase(lost, Done, Done))), Done);
            Run(b, [], [outer, bad], seen, f) == Some(Outcome([outer], []))
  {
    hide HashPath;
    var lastOne := Subcase(lost, Done, Done);
    var fromBad := Subcase(bad, Done, lastOne);
    var body := Subcase(good, Done, fromBad);
    assert [] + [outer] == [outer] && [outer, bad][1..] == [bad];
    assert Run(Done, [outer], [bad], seen, f) == None;
    assert Run(lastOne, [outer], [bad], seen, f) == None;
    assert Run(fromBad, [outer], [bad], seen, f) == None;
    assert Run(body, [outer], [bad], seen, f) == None;
  }

  /** What the first SUBCASE statement of the block does on its own, before the leaf. */
  function RunStatement(b: Block, prefix: Path, target: Path, seen: set<nat>, f: Filters): Option<Outcome>
    requires b.Subcase?
  {
    if (target == [] || target[0] == b.sig) && !f.Cuts(|prefix|, b.sig.name) then
      var inner := Run(b.body, prefix + [b.sig], if target == [] then [] else target[1..], seen, f);
      Some(if inner.Some? then inner.value else Outcome(prefix + [b.sig], []))
    else None
  }

  lemma RunIsStatementThenRest(b: Block, prefix: Path, target: Path, seen: set<nat>, f: Filters)
    requires b.Subcase?
    ensures var s := RunStatement(b, prefix, target, seen, f);
            Run(b, prefix, target, seen, f) ==
            if s.None? then Run(b.next, prefix, target, seen, f)
            else if s.value.next != [] then s
            else Some(s.value.(next := Scan(b.next, prefix, seen + {HashPath(s.value.leaf)}, |s.value.leaf|, f)))
    ensures var s := RunStatement(b, prefix, target, seen, f);
            s.Some? ==>
              && |prefix| < |s.value.leaf| && s.value.leaf[..|prefix|] == prefix && s.value.leaf[|prefix|] == b.sig
              && (s.value.next != [] ==> |prefix| < |s.value.next|)
  {
    if (target == [] || target[0] == b.sig) && !f.Cuts(|prefix|, b.sig.name) {
      var t := if target == [] then [] else target[1..];
      RunExtendsPrefix(b.body, prefix + [b.sig], t, seen, f);
      var leaf := RunStatement(b, prefix, target, seen, f).value.leaf;
      assert leaf[..|prefix| + 1] == prefix + [b.sig];
      assert leaf[..|prefix|] == leaf[..|prefix| + 1][..|prefix|];
    }
  }

  // ---------------------------------------------------------------------------------------
  // The program
  // ---------------------------------------------------------------------------------------

  /** The part of the proposed path that is still ahead once `depth` subcases are open. */
  function Ahead(next: Path, depth: nat): Path {
    if |next| <= depth then [] else next[depth..]
  }

  /** doctest's context state, as far as subcases use it. */
  class ContextState {
    const filters: Filters
    var reachedLeaf: bool
    var subcaseStack: seq<Signature>
    var nextSubcaseStack: seq<Signature>
    var fullyTraversedSubcases: set<nat>
    var currentSubcaseDepth: nat
    var events: seq<Event>

    constructor (filters: Filters)
      ensures this.filters == filters && nextSubcaseStack == [] && events == []
    {
      this.filters := filters;
      reachedLeaf := false;
      subcaseStack, nextSubcaseStack, fullyTraversedSubcases := [], [], {};
      currentSubcaseDepth := 0;
      events := [];
    }

    method CheckFilters(name: string) returns (cut: bool)
      ensures cut <==> filters.Cuts(|subcaseStack|, name)
    {
      if |subcaseStack| < filters.levels {
        var wanted := Wildcard.MatchesAny(name, filters.wanted, true, filters.caseSensitive);
        if !wanted {
          return true;
        }
        var unwanted := Wildcard.MatchesAny(name, filters.unwanted, false, filters.caseSensitive);
        if unwanted {
          return true;
        }
      }
      return false;
    }

    /** The constructor of `Subcase`. */
    method OpenSubcase(sig: Signature) returns (entered: bool)
      requires if reachedLeaf then currentSubcaseDepth < |subcaseStack| else currentSubcaseDepth == |subcaseStack|
      modifies this
      ensures reachedLeaf == old(reachedLeaf) && fullyTraversedSubcases == old(fullyTraversedSubcases)
      ensures !reachedLeaf ==>
                var ahead := Ahead(nextSubcaseStack, old(currentSubcaseDepth));
                && nextSubcaseStack == old(nextSubcaseStack)
                && (entered <==> (ahead == [] || ahead[0] == sig) && !filters.Cuts(old(|subcaseStack|), sig.name))
                && subcaseStack == old(subcaseStack) + (if entered then [sig] else [])
      ensures reachedLeaf ==>
                var d := old(currentSubcaseDepth);
                && subcaseStack == old(subcaseStack)
                && (entered <==> subcaseStack[d] == sig)
                && nextSubcaseStack ==
                   if !entered && old(|nextSubcaseStack|) <= d
                      && HashPath(subcaseStack[..d] + [sig]) !in fullyTraversedSubcases
                      && !filters.Cuts(|subcaseStack|, sig.name)
                   then subcaseStack[..d] + [sig] else old(nextSubcaseStack)
      ensures currentSubcaseDepth == old(currentSubcaseDepth) + (if entered then 1 else 0)
      ensures events == old(events) + (if entered then [SubcaseStart(sig)] else [])
    {
      entered := false;
      if !reachedLeaf {
        if |nextSubcaseStack| <= |subcaseStack| || nextSubcaseStack[|subcaseStack|] == sig {
          // Going down.
          var cut := CheckFilters(sig.name);
          if cut {
            return;
          }
          subcaseStack := subcaseStack + [sig];
          currentSubcaseDepth := currentSubcaseDepth + 1;
          entered := true;
          events := events + [SubcaseStart(sig)];
        }
      } else {
        ghost var path := subcaseStack[..currentSubcaseDepth] + [sig];
        assert path[..|path| - 1] == subcaseStack[..currentSubcaseDepth];
        if subcaseStack[currentSubcaseDepth] == sig {
          // Reentered via control flow.
          currentSubcaseDepth := currentSubcaseDepth + 1;
          entered := true;
          events := events + [SubcaseStart(sig)];
        } else if |nextSubcaseStack| <= currentSubcaseDepth
               && Combine(HashPath(subcaseStack[..currentSubcaseDepth]),
                  HashSignature(sig)) !in fullyTraversedSubcases {
          var cut := CheckFilters(sig.name);
          if cut {
            return;
          }
          // Part of the path to be executed next.
          nextSubcaseStack := subcaseStack[..currentSubcaseDepth];
          nextSubcaseStack := nextSubcaseStack + [sig];
        }
      }
    }

    /** The destructor of a `Subcase` that was entered. */
    method CloseSubcase()
      requires 0 < currentSubcaseDepth
      modifies this
      ensures reachedLeaf && subcaseStack == old(subcaseStack)
      ensures currentSubcaseDepth == old(currentSubcaseDepth) - 1
      ensures nextSubcaseStack == if old(reachedLeaf) then old(nextSubcaseStack) else []
      ensures fullyTraversedSubcases ==
              old(fullyTraversedSubcases) + (if nextSubcaseStack == [] then {HashPath(subcaseStack)} else {})
      ensures events == old(events) + [SubcaseEnd]
    {
      currentSubcaseDepth := currentSubcaseDepth - 1;
      if !reachedLeaf {
        // Leaf.
        fullyTraversedSubcases := fullyTraversedSubcases + {HashPath(subcaseStack)};
        nextSubcaseStack := [];
        reachedLeaf := true;
      } else if nextSubcaseStack == [] {
        // All children are finished.
        fullyTraversedSubcases := fullyTraversedSubcases + {HashPath(subcaseStack)};
      }
      events := events + [SubcaseEnd];
    }

    /** Where a block may start: at the end of the open path, or past the leaf and past the
        sibling that led to it. */
    ghost predicate Ready(b: Block)
      reads this
    {
      && Distinct(b)
      && (if !reachedLeaf then currentSubcaseDepth == |subcaseStack|
          else
            && currentSubcaseDepth < |subcaseStack|
            && !Among(b, subcaseStack[currentSubcaseDepth])
            && (nextSubcaseStack == [] || currentSubcaseDepth < |nextSubcaseStack|))
    }

    /** What a stretch of the program does before the leaf, given its outcome. */
    twostate predicate WentDown(new r: Option<Outcome>)
      reads this
    {
      && currentSubcaseDepth == old(currentSubcaseDepth)
      && match r
         case None =>
           && !reachedLeaf && subcaseStack == old(subcaseStack) && nextSubcaseStack == old(nextSubcaseStack)
           && fullyTraversedSubcases == old(fullyTraversedSubcases) && events == old(events)
         case Some(o) =>
           && reachedLeaf && subcaseStack == o.leaf && nextSubcaseStack == o.next
           && fullyTraversedSubcases == old(fullyTraversedSubcases) + {HashPath(o.leaf)}
           && currentSubcaseDepth < |o.leaf|
           && events == old(events) + Starts(o.leaf[currentSubcaseDepth..]) + Ends(|o.leaf| - currentSubcaseDepth)
    }

    /** What a stretch of the program does past the leaf, given the path it proposes. */
    twostate predicate LookedOn(new proposal: Path)
      reads this
    {
      && reachedLeaf && currentSubcaseDepth == old(currentSubcaseDepth)
      && subcaseStack == old(subcaseStack) && events == old(events)
      && fullyTraversedSubcases == old(fullyTraversedSubcases)
      && nextSubcaseStack == if old(nextSubcaseStack) != [] then old(nextSubcaseStack) else proposal
    }

    /** `if (Subcase s{...}) { body }`: constructor, body if entered, destructor. */
    method RunSubcase(b: Block)
      requires b.Subcase? && Ready(b)
      modifies this
      ensures old(reachedLeaf) ==>
                var path := old(subcaseStack[..currentSubcaseDepth]) + [b.sig];
                LookedOn(if HashPath(path) !in fullyTraversedSubcases && !filters.Cuts(|subcaseStack|, b.sig.name)
                         then path else [])
      ensures !old(reachedLeaf) ==>
                WentDown(RunStatement(b, old(subcaseStack), Ahead(old(nextSubcaseStack), old(currentSubcaseDepth)),
                                      old(fullyTraversedSubcases), filters))
      decreases b, 0
    {
      hide Run, Scan, HashPath, Starts, Ends, Height, Filters.Cuts, Filters.Rejects;
      ghost var stack, next, seen, d := subcaseStack, nextSubcaseStack, fullyTraversedSubcases, currentSubcaseDepth;
      ghost var log, down := events, !reachedLeaf;
      var entered := OpenSubcase(b.sig);
      if entered {
        ghost var t := Ahead(nextSubcaseStack, currentSubcaseDepth);
        assert t == if Ahead(next, d) == [] then [] else Ahead(next, d)[1..];
        RunBlock(b.body);
        ghost var inner := Run(b.body, stack + [b.sig], t, seen, filters);
        ghost var leaf := if inner.Some? then inner.value.leaf else stack + [b.sig];
        RunIsStatementThenRest(b, stack, Ahead(next, d), seen, filters);
        NoEvents();
        assert inner.None? ==> leaf[d + 1..] == [];
        assert events == log + [SubcaseStart(b.sig)] + Starts(leaf[d + 1..]) + Ends(|leaf| - d - 1);
        CloseSubcase();
        ChainEvents(b.sig, leaf, d);
        assert fullyTraversedSubcases == seen + {HashPath(leaf)};
        assert events == log + ([SubcaseStart(b.sig)] + Starts(leaf[d + 1..]) + Ends(|leaf| - d - 1) + [SubcaseEnd]);
      } else {
        assert stack + [] == stack && log + [] == log;
      }
    }

    /** The statements of one block, one after the other. */
    method RunBlock(b: Block)
      requires Ready(b)
      modifies this
      ensures old(reachedLeaf) ==>
                LookedOn(Scan(b, old(subcaseStack[..currentSubcaseDepth]), old(fullyTraversedSubcases),
                              old(|subcaseStack|), filters))
      ensures !old(reachedLeaf) ==>
                WentDown(Run(b, old(subcaseStack), Ahead(old(nextSubcaseStack), old(currentSubcaseDepth)),
                             old(fullyTraversedSubcases), filters))
      decreases b, 1
    {
      if b.Subcase? {
        RunIsStatementThenRest(b, subcaseStack, Ahead(nextSubcaseStack, currentSubcaseDepth),
                               fullyTraversedSubcases, filters);
        RunSubcase(b);
        RunBlock(b.next);
      }
    }

    /** At most `n` rounds of the re-run loop, under any filters, and whether it goes on. */
    method RunRounds(b: Block, n: nat) returns (runTest: bool)
      requires Distinct(b) && nextSubcaseStack == []
      modifies this
      ensures var l := Rounds(b, filters, n);
              && nextSubcaseStack == l.next && fullyTraversedSubcases == l.seen
              && events == old(events) + l.events && runTest == !l.ended
    {
      fullyTraversedSubcases := {};
      runTest := true;
      var k := 0;
      hide Run, Distinct, HashPath;
      assert events + [] == events;
      while runTest && k < n
        invariant k <= n
        invariant var l := Rounds(b, filters, k);
                  && nextSubcaseStack == l.next && fullyTraversedSubcases == l.seen
                  && events == old(events) + l.events && runTest == !l.ended
      {
        ghost var l := Rounds(b, filters, k);
        runTest := RunAndReenter(b);
        k := k + 1;
        JoinLoop(old(events), l, b, filters);
      }
      EndedStaysEnded(b, filters, k, n);
    }

    /** The re-run loop of `Context::run` for one test case. */
    method RunTestCase(b: Block)
      requires Distinct(b) && Tame(filters, Height(b)) && nextSubcaseStack == []
      modifies this
      ensures nextSubcaseStack == [] && Distinct(Wanted(b, filters))
      ensures events == old(events) + TestCaseEvents(TestCaseRuns(Wanted(b, filters)))
      ensures NoHashTaken(Leaves(Wanted(b, filters))) ==>
                events == old(events) + TestCaseEvents(Leaves(Wanted(b, filters)))
    {
      ghost var p := Wanted(b, filters);
      WantedKeepsDistinct(b, filters);
      EveryLeafExactlyOnce(p);
      NoRuns(p);
      hide Remaining, Wanted, Tame, Leaves, Distinct, Height, TestCaseEvents, TestCaseRuns, NoHashTaken;
      fullyTraversedSubcases := {};
      var runTest := true;
      ghost var all := Remaining(p, [], {});
      while runTest
        invariant p.Subcase? ==> Leads(p, nextSubcaseStack)
        invariant p.Done? || !runTest ==> nextSubcaseStack == []
        invariant old(events) + all ==
                  if runTest then events + Remaining(p, nextSubcaseStack, fullyTraversedSubcases) else events
        decreases runTest, |LeavesAfter(p, nextSubcaseStack)|
      {
        ghost var target, seen, log := nextSubcaseStack, fullyTraversedSubcases, events;
        runTest := RunAndReenter(b);
        RoundProgress(b, p, filters, target, seen, log, nextSubcaseStack, fullyTraversedSubcases, events);
      }
    }

    /** One round of the loop, and whether there is another one. */
    method RunAndReenter(b: Block) returns (runTest: bool)
      requires Distinct(b)
      modifies this
      ensures runTest <==> nextSubcaseStack != []
      ensures var r := Run(b, [], old(nextSubcaseStack), old(fullyTraversedSubcases), filters);
              RoundIs(r, old(nextSubcaseStack), old(fullyTraversedSubcases), old(events),
                      nextSubcaseStack, fullyTraversedSubcases, events)
    {
      hide Run, Distinct, HashPath, RunEvents;
      RunOnce(b);
      assert events + [] == events;
      if nextSubcaseStack != [] {
        events := events + [TestCaseReenter];
        return true;
      }
      return false;
    }

    /** One round of the loop: reset, execute the test. */
    method RunOnce(b: Block)
      requires Distinct(b)
      modifies this
      ensures var r := Run(b, [], old(nextSubcaseStack), old(fullyTraversedSubcases), filters);
              if r.None? then
                && nextSubcaseStack == old(nextSubcaseStack) && events == old(events)
                && fullyTraversedSubcases == old(fullyTraversedSubcases)
              else
                && nextSubcaseStack == r.value.next && events == old(events) + RunEvents(r.value.leaf)
                && fullyTraversedSubcases == old(fullyTraversedSubcases) + {HashPath(r.value.leaf)}
    {
      hide Run, HashPath, Distinct, Starts, Ends, RunEvents;
      ghost var target, log, seen := nextSubcaseStack, events, fullyTraversedSubcases;
      Reset();
      assert Ahead(target, 0) == target;
      RunBlock(b);
      assert subcaseStack[0..] == subcaseStack;
      AppendRun(log, subcaseStack);
    }

    method Reset()
      modifies `reachedLeaf, `subcaseStack, `currentSubcaseDepth
      ensures !reachedLeaf && subcaseStack == [] && currentSubcaseDepth == 0
    {
      reachedLeaf := false;
      subcaseStack := [];
      currentSubcaseDepth := 0;
    }
  }

  /** The events of the runs that are still to come. */
  ghost function Remaining(b: Block, target: Path, seen: set<nat>): seq<Event>
    requires Distinct(b) && (b.Subcase? ==> Leads(b, target))
  {
    if b.Done? then [] else TestCaseEvents(Runs(b, target, seen))
  }

  /** One round takes the proposal, the memory and the events from the first to the second three. */
  ghost predicate RoundIs(r: Option<Outcome>, next: Path, seen: set<nat>, log: seq<Event>,
                          next': Path, seen': set<nat>, log': seq<Event>)
  {
    match r
    case None => next' == next && seen' == seen && log' == log + Reenter(next)
    case Some(o) =>
      && next' == o.next && seen' == seen + {HashPath(o.leaf)}
      && log' == log + RunEvents(o.leaf) + Reenter(o.next)
  }

  lemma JoinLoop(log: seq<Event>, l: Loop, b: Block, f: Filters)
    requires !l.ended
    ensures var r := Run(b, [], l.next, l.seen, f); var events := if r.None? then [] else RunEvents(r.value.leaf);
            log + (l.events + events + Reenter(Round(b, f, l).next))
              == log + l.events + events + Reenter(Round(b, f, l).next)
    ensures log + (l.events + Reenter(l.next)) == log + l.events + Reenter(l.next)
  {
  }

  lemma {:induction false} EndedStaysEnded(b: Block, f: Filters, k: nat, n: nat)
    requires k <= n && (Rounds(b, f, k).ended || k == n)
    ensures Rounds(b, f, n) == Rounds(b, f, k)
    decreases n
  {
    hide Run;
    if k < n {
      EndedStaysEnded(b, f, k, n - 1);
    }
  }

  /** A round of the wanted subcases does one of the runs that are still to come. */
  lemma RoundProgress(b: Block, p: Block, f: Filters, target: Path, seen: set<nat>, log: seq<Event>,
                      target': Path, seen': set<nat>, log': seq<Event>)
    requires Tame(f, Height(b)) && p == Wanted(b, f) && Distinct(p)
    requires if p.Subcase? then Leads(p, target) else target == []
    requires RoundIs(Run(b, [], target, seen, f), target, seen, log, target', seen', log')
    ensures p.Subcase? ==> Leads(p, target')
    ensures target' != [] ==> p.Subcase? && |LeavesAfter(p, target')| < |LeavesAfter(p, target)|
    ensures p.Done? ==> target' == []
    ensures log + Remaining(p, target, seen) == if target' != [] then log' + Remaining(p, target', seen') else log'
  {
    TameRunIsWantedRun(b, target, seen, f);
    OneRun(p, target, seen);
    var r := Run(p, [], target, seen, NO_FILTERS);
    hide Run, Remaining, Wanted, Tame, LeavesAfter, Leads, Distinct, Height, HashPath, RunEvents;
    if r.Some? {
      var rest := if target' != [] then Remaining(p, target', seen') else [];
      JoinRuns(log, RunEvents(r.value.leaf), Reenter(target'), rest);
    }
  }

  lemma JoinRuns(log: seq<Event>, run: seq<Event>, again: seq<Event>, rest: seq<Event>)
    ensures log + (run + again + rest) == log + run + again + rest
    ensures log + run + [] == log + run && log + [] == log
  {
  }

  lemma AppendRun(log: seq<Event>, leaf: Path)
    ensures log + Starts(leaf) + Ends(|leaf|) == log + RunEvents(leaf)
  {
  }

  lemma NoEvents()
    ensures Starts([]) == [] && Ends(0) == []
  {
  }

  lemma ChainEvents(sig: Signature, leaf: Path, d: nat)
    requires d < |leaf| && leaf[d] == sig
    ensures [SubcaseStart(sig)] + Starts(leaf[d + 1..]) + Ends(|leaf| - d - 1) + [SubcaseEnd] ==
            Starts(leaf[d..]) + Ends(|leaf| - d)
  {
    assert [SubcaseStart(sig)] + Starts(leaf[d + 1..]) == Starts(leaf[d..]);
    assert Ends(|leaf| - d - 1) + [SubcaseEnd] == Ends(|leaf| - d);
  }

  lemma NoRuns(b: Block)
    requires Distinct(b)
    ensures Remaining(b, [], {}) == TestCaseEvents(TestCaseRuns(b))
  {
    NoEvents();
  }

  lemma OneRun(b: Block, target: Path, seen: set<nat>)
    requires Distinct(b) && (if b.Subcase? then Leads(b, target) else target == [])
    ensures var r := Run(b, [], target, seen, NO_FILTERS);
            && (b.Done? <==> r.None?)
            && (b.Done? ==> Remaining(b, target, seen) == [])
            && (b.Subcase? ==>
              && Leads(b, r.value.next)
              && if r.value.next == [] then Remaining(b, target, seen) == RunEvents(r.value.leaf)
                 else
                   && |LeavesAfter(b, r.value.next)| < |LeavesAfter(b, target)|
                   && Remaining(b, target, seen) ==
                      RunEvents(r.value.leaf) + [TestCaseReenter]
                      + Remaining(b, r.value.next, seen + {HashPath(r.value.leaf)}))
  {
    if b.Subcase? {
      RunIsRight(b, [], target, seen);
      var o := Run(b, [], target, seen, NO_FILTERS).value;
      hide Run, HashPath, Turn, Common, Scan, LeavesFrom, Leaves, LeavesAfter, Leads, Distinct;
      assert o.next[0..] == o.next;
      assert o.leaf == LeavesAfter(b, target)[0];
      if o.next != [] {
        var rest := Runs(b, o.next, seen + {HashPath(o.leaf)});
        assert Runs(b, target, seen) == [o.leaf] + rest;
        assert ([o.leaf] + rest)[1..] == rest;
      }
    }
  }
}
