/**
 Feature declarations and the canonical handoff path of every peer.

 `ValidateFeature` is the construction check of a Feature, `CanonicalPeerPaths` the
 best-first search that freezes one path per agent. Both are judged against walks
 over the handoff graph, which neither of them mentions.
 */
module PeerPaths {
  import opened Wrappers
  import opened Ordering

  datatype Agent = Agent(key: string, backend: string)

  datatype Feature = Feature(key: string, agents: seq<Agent>, entryAgent: string, handoffs: seq<(string, string)>)

  datatype FeatureError =
    | InvalidKey
    | NoAgents
    | DuplicateAgents
    | UnknownEntry
    | MixedBackends
    | HandoffsRequired
    | UnknownHandoff
    | SelfHandoff
    | DuplicateHandoffs
    | SingleAgentHandoffs
    | UnreachableAgents(names: seq<string>)
    | OutsideGraph

  type Path = seq<string>

  function Keys(f: Feature): set<string> {
    set a | a in f.agents :: a.key
  }

  function Edges(f: Feature): set<(string, string)> {
    set e | e in f.handoffs
  }

  predicate Distinct<T(==)>(s: seq<T>) {
    forall i, j | 0 <= i < j < |s| :: s[i] != s[j]
  }

  // ----- walks ----------------------------------------------------------------

  /** `w` starts at the entry agent and follows declared handoffs. */
  ghost predicate Walk(edges: set<(string, string)>, entry: string, w: Path) {
    && w != []
    && w[0] == entry
    && forall i | 0 < i < |w| :: (w[i - 1], w[i]) in edges
  }

  function Last(w: Path): string
    requires w != []
  {
    w[|w| - 1]
  }

  ghost predicate Reaches(edges: set<(string, string)>, entry: string, target: string) {
    exists w :: Walk(edges, entry, w) && Last(w) == target
  }

  /** Shorter first, then lexicographically smaller: the sort key `(len(value), value)`. */
  predicate Before(p: Path, q: Path) {
    |p| < |q| || (|p| == |q| && Lex(StrLess, p, q))
  }

  lemma BeforeTotal()
    ensures StrictTotal(Before)
  {
    StrLessTotal();
    forall p: Path
      ensures !Before(p, p)
    {
      LexIrreflexive(StrLess, p);
    }
    forall p: Path, q: Path, r: Path | Before(p, q) && Before(q, r)
      ensures Before(p, r)
    {
      if |p| == |q| == |r| {
        LexTransitive(StrLess, p, q, r);
      }
    }
    forall p: Path, q: Path | p != q
      ensures Before(p, q) || Before(q, p)
    {
      LexConnected(StrLess, p, q);
    }
  }

  lemma ExtendWalk(edges: set<(string, string)>, entry: string, w: Path, target: string)
    requires Walk(edges, entry, w)
    requires (Last(w), target) in edges
    ensures Walk(edges, entry, w + [target]) && Last(w + [target]) == target
  {
  }

  lemma ShortenWalk(edges: set<(string, string)>, entry: string, w: Path, k: nat)
    requires Walk(edges, entry, w)
    requires 0 < k <= |w|
    ensures Walk(edges, entry, w[..k]) && Last(w[..k]) == w[k - 1]
  {
  }

  /** A set that contains the entry and is closed under handoffs contains every walk's end. */
  lemma {:induction false} ClosedSetContainsWalks(edges: set<(string, string)>, entry: string, closed: set<string>, w: Path)
    requires entry in closed
    requires forall e | e in edges && e.0 in closed :: e.1 in closed
    requires Walk(edges, entry, w)
    ensures Last(w) in closed
  {
    if |w| > 1 {
      ShortenWalk(edges, entry, w, |w| - 1);
      ClosedSetContainsWalks(edges, entry, closed, w[..|w| - 1]);
      assert (w[|w| - 2], w[|w| - 1]) in edges;
    }
  }

  // ----- acceptance of a Feature ----------------------------------------------

  predicate KeyChar(c: char) {
    'a' <= c <= 'z' || '0' <= c <= '9' || c == '_'
  }

  predicate KeyMatches(key: string) {
    && 1 <= |key| <= 64
    && 'a' <= key[0] <= 'z'
    && forall i | 0 < i < |key| :: KeyChar(key[i])
  }

  predicate DistinctKeys(f: Feature) {
    forall i, j | 0 <= i < j < |f.agents| :: f.agents[i].key != f.agents[j].key
  }

  predicate OneBackend(f: Feature) {
    forall i, j | 0 <= i < |f.agents| && 0 <= j < |f.agents| :: f.agents[i].backend == f.agents[j].backend
  }

  predicate HandoffOk(f: Feature, e: (string, string)) {
    e.0 in Keys(f) && e.1 in Keys(f) && e.0 != e.1
  }

  /** What every later consumer may rely on, reachability apart. */
  ghost predicate Structured(f: Feature) {
    && KeyMatches(f.key)
    && f.agents != []
    && DistinctKeys(f)
    && f.entryAgent in Keys(f)
    && OneBackend(f)
    && (forall e | e in f.handoffs :: HandoffOk(f, e))
    && Distinct(f.handoffs)
    && (f.handoffs == [] <==> |f.agents| == 1)
  }

  ghost predicate AllReachable(f: Feature) {
    forall a | a in Keys(f) :: Reaches(Edges(f), f.entryAgent, a)
  }

  /** The condition each refusal reports. */
  ghost predicate Justifies(f: Feature, error: FeatureError) {
    match error
    case InvalidKey => !KeyMatches(f.key)
    case NoAgents => f.agents == []
    case DuplicateAgents => !DistinctKeys(f)
    case UnknownEntry => f.entryAgent !in Keys(f)
    case MixedBackends => !OneBackend(f)
    case HandoffsRequired => |f.agents| > 1 && f.handoffs == []
    case UnknownHandoff => exists e :: e in f.handoffs && (e.0 !in Keys(f) || e.1 !in Keys(f))
    case SelfHandoff => exists e :: e in f.handoffs && e.0 == e.1
    case DuplicateHandoffs => !Distinct(f.handoffs)
    case SingleAgentHandoffs => |f.agents| == 1 && f.handoffs != []
    case UnreachableAgents(names) =>
      && Structured(f)
      && names != []
      && SortedBy(StrLess, names)
      && forall a :: a in names <==> a in Keys(f) && !Reaches(Edges(f), f.entryAgent, a)
    case OutsideGraph => false
  }

  /** The order in which the checks are made. */
  function Rank(error: FeatureError): nat {
    match error
    case InvalidKey => 0
    case NoAgents => 1
    case DuplicateAgents => 2
    case UnknownEntry => 3
    case MixedBackends => 4
    case HandoffsRequired => 5
    case UnknownHandoff => 6
    case SelfHandoff => 6
    case DuplicateHandoffs => 7
    case SingleAgentHandoffs => 8
    case UnreachableAgents(_) => 9
    case OutsideGraph => 10
  }

  /** The first check that fails reports its error; among the handoffs the first bad one decides. */
  ghost predicate Earliest(f: Feature, error: FeatureError) {
    && Justifies(f, error)
    && (forall e | Rank(e) < Rank(error) :: !Justifies(f, e))
    && (Rank(error) == 6 ==> exists i: nat :: FirstBad(f, i) && error == HandoffError(f, f.handoffs[i]))
  }

  ghost predicate FirstBad(f: Feature, i: nat) {
    i < |f.handoffs| && !HandoffOk(f, f.handoffs[i]) && forall k | 0 <= k < i :: HandoffOk(f, f.handoffs[k])
  }

  function HandoffError(f: Feature, e: (string, string)): FeatureError {
    if e.0 !in Keys(f) || e.1 !in Keys(f) then UnknownHandoff else SelfHandoff
  }

  /** The reachability loop: grow a set by one handoff at a time until nothing is added. */
  method ReachableAgents(f: Feature) returns (reachable: set<string>)
    requires f.entryAgent in Keys(f)
    requires forall e | e in f.handoffs :: e.1 in Keys(f)
    ensures forall a :: a in reachable <==> Reaches(Edges(f), f.entryAgent, a)
  {
    ghost var edges := Edges(f);
    reachable := {f.entryAgent};
    assert Walk(edges, f.entryAgent, [f.entryAgent]);
    while true
      invariant f.entryAgent in reachable
      invariant reachable <= Keys(f)
      invariant forall a | a in reachable :: Reaches(edges, f.entryAgent, a)
      decreases Keys(f) - reachable
    {
      var expanded := reachable + set e | e in f.handoffs && e.0 in reachable :: e.1;
      if expanded == reachable {
        break;
      }
      forall a | a in expanded
        ensures Reaches(edges, f.entryAgent, a)
      {
        if a !in reachable {
          var e :| e in f.handoffs && e.0 in reachable && e.1 == a;
          var w :| Walk(edges, f.entryAgent, w) && Last(w) == e.0;
          ExtendWalk(edges, f.entryAgent, w, a);
        }
      }
      reachable := expanded;
    }
    forall a | Reaches(edges, f.entryAgent, a)
      ensures a in reachable
    {
      var w :| Walk(edges, f.entryAgent, w) && Last(w) == a;
      forall e | e in edges && e.0 in reachable
        ensures e.1 in reachable
      {
        assert e in f.handoffs;
      }
      ClosedSetContainsWalks(edges, f.entryAgent, reachable, w);
    }
  }

  /** The keys of `agents` that lie in `wanted`, in declaration order. */
  function KeysIn(agents: seq<Agent>, wanted: set<string>): (r: seq<string>)
    ensures forall k :: k in r <==> k in wanted && exists a :: a in agents && a.key == k
  {
    if agents == [] then [] else
      assert agents == [agents[0]] + agents[1..];
      (if agents[0].key in wanted then [agents[0].key] else []) + KeysIn(agents[1..], wanted)
  }

  /** Construction of a Feature: accepted exactly when it is structured and every agent is reachable. */
  method ValidateFeature(f: Feature) returns (r: Result<(), FeatureError>)
    ensures r.Ok? <==> Structured(f) && AllReachable(f)
    ensures r.Err? ==> Earliest(f, r.error)
  {
    if !KeyMatches(f.key) {
      return Err(InvalidKey);
    }
    if f.agents == [] {
      return Err(NoAgents);
    }
    if !DistinctKeys(f) {
      return Err(DuplicateAgents);
    }
    if f.entryAgent !in Keys(f) {
      return Err(UnknownEntry);
    }
    if !OneBackend(f) {
      return Err(MixedBackends);
    }
    if |f.agents| > 1 && f.handoffs == [] {
      return Err(HandoffsRequired);
    }
    for i := 0 to |f.handoffs|
      invariant forall k | 0 <= k < i :: HandoffOk(f, f.handoffs[k])
    {
      var (source, target) := f.handoffs[i];
      assert (source, target) in f.handoffs;
      assert HandoffOk(f, (source, target)) || FirstBad(f, i);
      if source !in Keys(f) || target !in Keys(f) {
        return Err(UnknownHandoff);
      }
      if source == target {
        return Err(SelfHandoff);
      }
    }
    if !Distinct(f.handoffs) {
      return Err(DuplicateHandoffs);
    }
    if |f.agents| == 1 && f.handoffs != [] {
      return Err(SingleAgentHandoffs);
    }
    assert Structured(f);
    if |f.agents| > 1 {
      r := CheckReachable(f);
    } else {
      SingleAgentReachable(f);
      r := Ok(());
    }
  }

  method CheckReachable(f: Feature) returns (r: Result<(), FeatureError>)
    requires Structured(f)
    ensures r.Ok? <==> AllReachable(f)
    ensures r.Err? ==> r.error.UnreachableAgents? && Justifies(f, r.error)
  {
    assert forall e | e in f.handoffs :: HandoffOk(f, e);
    var reachable := ReachableAgents(f);
    var unreachable := Keys(f) - reachable;
    if unreachable == {} {
      forall a | a in Keys(f)
        ensures a in reachable
      {
        assert a !in unreachable;
      }
      return Ok(());
    }
    var listed := KeysIn(f.agents, unreachable);
    var names := Sort(StrLess, listed);
    StrLessTotal();
    SortSorted(StrLess, listed);
    SortMembers(StrLess, listed);
    var some :| some in unreachable;
    assert some in listed;
    assert some in names;
    return Err(UnreachableAgents(names));
  }

  lemma SingleAgentReachable(f: Feature)
    requires |f.agents| == 1 && f.entryAgent in Keys(f)
    ensures AllReachable(f)
  {
    forall a | a in Keys(f)
      ensures Reaches(Edges(f), f.entryAgent, a)
    {
      assert a == f.agents[0].key == f.entryAgent;
      assert Walk(Edges(f), f.entryAgent, [a]) && Last([a]) == a;
    }
  }

  // ----- canonical paths ------------------------------------------------------

  /** `p` is the first walk to its own end: none is shorter, none of its length is smaller. */
  ghost predicate Least(edges: set<(string, string)>, entry: string, p: Path) {
    && Walk(edges, entry, p)
    && forall w | Walk(edges, entry, w) && Last(w) == Last(p) :: !Before(w, p)
  }

  /** Every path ends at its own key and is the least walk there. */
  ghost predicate Canonical(edges: set<(string, string)>, entry: string, paths: map<string, Path>) {
    forall a | a in paths :: Least(edges, entry, paths[a]) && Last(paths[a]) == a
  }

  ghost predicate FrontierOk(paths: map<string, Path>, frontier: seq<Path>, settled: set<string>) {
    forall p | p in frontier :: p != [] && Last(p) in paths && paths[Last(p)] == p && Last(p) !in settled
  }

  ghost predicate NoRepeats(s: seq<Path>) {
    forall x | x in s :: multiset(s)[x] == 1
  }

  /** Agents already expanded have all their handoff targets assigned. */
  ghost predicate SettledClosed(edges: set<(string, string)>, paths: map<string, Path>, settled: set<string>) {
    forall e | e in edges && e.0 in settled :: e.1 in paths
  }

  ghost predicate Covered(paths: map<string, Path>, frontier: seq<Path>, settled: set<string>) {
    forall a | a in paths :: a in settled || paths[a] in frontier
  }

  /** What holds between the rounds of the search. */
  ghost predicate Searching(edges: set<(string, string)>, entry: string, paths: map<string, Path>, frontier: seq<Path>, settled: set<string>) {
    && entry in paths
    && Canonical(edges, entry, paths)
    && FrontierOk(paths, frontier, settled)
    && NoRepeats(frontier)
    && Covered(paths, frontier, settled)
  }

  lemma AssignKeepsSearching(edges: set<(string, string)>, entry: string, paths: map<string, Path>, frontier: seq<Path>, settled: set<string>, candidate: Path)
    requires Searching(edges, entry, paths, frontier, settled)
    requires Least(edges, entry, candidate) && Last(candidate) !in paths && Last(candidate) !in settled
    ensures Searching(edges, entry, paths[Last(candidate) := candidate], frontier + [candidate], settled)
  {
    assert candidate !in frontier;
    var after := frontier + [candidate];
    assert multiset(after) == multiset(frontier) + multiset([candidate]);
    var paths' := paths[Last(candidate) := candidate];
    assert Covered(paths', after, settled) by {
      assert after[|frontier|] == candidate;
      forall a | a in paths'
        ensures a in settled || paths'[a] in after
      {
        if a in paths && a !in settled {
          assert paths[a] in frontier;
        }
      }
    }
  }

  /** Taking the head off the frontier and marking its agent as expanded. */
  lemma PopKeepsSearching(edges: set<(string, string)>, entry: string, paths: map<string, Path>, frontier: seq<Path>, settled: set<string>)
    requires Searching(edges, entry, paths, frontier, settled)
    requires frontier != []
    ensures frontier[0] != [] && Last(frontier[0]) in paths && paths[Last(frontier[0])] == frontier[0]
    ensures Searching(edges, entry, paths, frontier[1..], settled + {Last(frontier[0])})
  {
    var path, rest := frontier[0], frontier[1..];
    assert frontier == [path] + rest;
    assert multiset(frontier) == multiset([path]) + multiset(rest);
    assert path in frontier;
    forall p | p in rest
      ensures p in frontier && p != path && multiset(rest)[p] == 1
    {
      assert multiset(frontier)[p] == 1;
    }
  }

  lemma SortKeepsSearching(edges: set<(string, string)>, entry: string, paths: map<string, Path>, frontier: seq<Path>, settled: set<string>)
    requires Searching(edges, entry, paths, frontier, settled)
    ensures Searching(edges, entry, paths, Sort(Before, frontier), settled)
    ensures SortedBy(Before, Sort(Before, frontier))
  {
    BeforeTotal();
    SortSorted(Before, frontier);
    SortMembers(Before, frontier);
  }

  /**
   The heart of the search: when `head` is the least path waiting, every walk that
   comes before it ends at an agent already expanded.
   */
  lemma {:induction false} EarlierWalksSettled(
      edges: set<(string, string)>, entry: string, paths: map<string, Path>,
      frontier: seq<Path>, settled: set<string>, head: Path, q: Path)
    requires Canonical(edges, entry, paths) && entry in paths
    requires SettledClosed(edges, paths, settled) && Covered(paths, frontier, settled)
    requires forall p | p in frontier :: !Before(p, head)
    requires Walk(edges, entry, q) && Before(q, head)
    ensures Last(q) in settled
    decreases |q|
  {
    BeforeTotal();
    var b := Last(q);
    if |q| > 1 {
      var r := q[..|q| - 1];
      ShortenWalk(edges, entry, q, |q| - 1);
      EarlierWalksSettled(edges, entry, paths, frontier, settled, head, r);
      assert (q[|q| - 2], q[|q| - 1]) in edges;
    }
    assert b in paths;
    assert !Before(q, paths[b]);
    assert paths[b] == q || Before(paths[b], q);
    assert Before(paths[b], head);
  }

  /** A target met for the first time gets its least path. */
  lemma FirstAssignmentLeast(
      edges: set<(string, string)>, entry: string, paths: map<string, Path>, settled: set<string>,
      head: Path, target: string)
    requires Walk(edges, entry, head) && (Last(head), target) in edges
    requires entry in paths && target !in paths
    requires SettledClosed(edges, paths, settled)
    requires forall q | Walk(edges, entry, q) && Before(q, head) :: Last(q) in settled
    ensures Least(edges, entry, head + [target])
  {
    var candidate := head + [target];
    ExtendWalk(edges, entry, head, target);
    forall w | Walk(edges, entry, w) && Last(w) == target
      ensures !Before(w, candidate)
    {
      if Before(w, candidate) {
        assert |w| > 1;
        var q := w[..|w| - 1];
        ShortenWalk(edges, entry, w, |w| - 1);
        assert w == q + [target];
        assert (w[|w| - 2], w[|w| - 1]) in edges;
        StrLessTotal();
        if |w| == |candidate| {
          LexAppend(StrLess, q, head, target, target);
        }
        assert Before(q, head);
        assert false;
      }
    }
  }

  /** A target met again keeps its path: the source's comparison never lets a candidate replace it. */
  lemma NeverOverwritten(
      edges: set<(string, string)>, entry: string, paths: map<string, Path>, head: Path, target: string)
    requires Canonical(edges, entry, paths)
    requires Walk(edges, entry, head) && (Last(head), target) in edges
    requires target in paths
    ensures !Before(head + [target], paths[target])
  {
    ExtendWalk(edges, entry, head, target);
  }

  ghost predicate ListsHandoffs(f: Feature, adjacency: map<string, seq<string>>) {
    adjacency.Keys == Keys(f) && forall a, t | a in adjacency :: t in adjacency[a] <==> (a, t) in Edges(f)
  }

  method GroupHandoffs(f: Feature) returns (adjacency: map<string, seq<string>>)
    requires forall e | e in f.handoffs :: e.0 in Keys(f)
    ensures ListsHandoffs(f, adjacency)
  {
    adjacency := map a | a in Keys(f) :: [];
    for i := 0 to |f.handoffs|
      invariant adjacency.Keys == Keys(f)
      invariant forall a, t | a in adjacency :: t in adjacency[a] <==> (a, t) in f.handoffs[..i]
    {
      var (source, target) := f.handoffs[i];
      assert f.handoffs[i] in f.handoffs;
      adjacency := adjacency[source := adjacency[source] + [target]];
      assert f.handoffs[..i + 1] == f.handoffs[..i] + [(source, target)];
    }
    assert f.handoffs[..|f.handoffs|] == f.handoffs;
  }

  lemma SortOneList(f: Feature, adjacency: map<string, seq<string>>, key: string)
    requires ListsHandoffs(f, adjacency) && key in adjacency
    ensures ListsHandoffs(f, adjacency[key := Sort(StrLess, adjacency[key])])
    ensures SortedBy(StrLess, Sort(StrLess, adjacency[key]))
  {
    StrLessTotal();
    SortMembers(StrLess, adjacency[key]);
    SortSorted(StrLess, adjacency[key]);
  }

  method SortedAdjacency(f: Feature) returns (adjacency: map<string, seq<string>>)
    requires forall e | e in f.handoffs :: e.0 in Keys(f)
    ensures adjacency.Keys == Keys(f)
    ensures forall a, t | a in adjacency :: t in adjacency[a] <==> (a, t) in Edges(f)
    ensures forall a | a in adjacency :: SortedBy(StrLess, adjacency[a])
  {
    adjacency := GroupHandoffs(f);
    ghost var sorted: set<string> := {};
    for i := 0 to |f.agents|
      invariant ListsHandoffs(f, adjacency)
      invariant forall k | 0 <= k < i :: f.agents[k].key in sorted
      invariant forall a | a in sorted :: a in adjacency && SortedBy(StrLess, adjacency[a])
    {
      var key := f.agents[i].key;
      assert f.agents[i] in f.agents;
      SortOneList(f, adjacency, key);
      adjacency := adjacency[key := Sort(StrLess, adjacency[key])];
      sorted := sorted + {key};
    }
  }

  /**
   The best-first search. It terminates, reports an agent outside the graph exactly when
   one is unreachable, and otherwise gives every agent its least walk from the entry.
   */
  method CanonicalPeerPaths(f: Feature) returns (r: Result<map<string, Path>, FeatureError>)
    requires f.entryAgent in Keys(f)
    requires forall e | e in f.handoffs :: e.0 in Keys(f) && e.1 in Keys(f)
    ensures r.Ok? <==> AllReachable(f)
    ensures r.Ok? ==> r.value.Keys == Keys(f) && Canonical(Edges(f), f.entryAgent, r.value)
    ensures r.Err? ==> r.error == OutsideGraph
  {
    var adjacency := SortedAdjacency(f);
    ghost var edges := Edges(f);
    ghost var settled: set<string> := {};
    var entry := f.entryAgent;
    var paths: map<string, Path> := map[entry := [entry]];
    var frontier: seq<Path> := [[entry]];
    BeforeTotal();
    assert Least(edges, entry, [entry]) by {
      forall w | Walk(edges, entry, w)
        ensures !Before(w, [entry])
      {
        assert |w| == 1 ==> w == [entry];
      }
    }
    assert NoRepeats(frontier) && frontier[0] == [entry];
    while frontier != []
      invariant paths.Keys <= Keys(f) && settled <= paths.Keys
      invariant Searching(edges, entry, paths, frontier, settled)
      invariant SortedBy(Before, frontier)
      invariant SettledClosed(edges, paths, settled)
      decreases Keys(f) - settled
    {
      var path := frontier[0];
      assert path in frontier && Last(path) !in settled;
      forall q | Walk(edges, entry, q) && Before(q, path)
        ensures Last(q) in settled
      {
        EarlierWalksSettled(edges, entry, paths, frontier, settled, path, q);
      }
      PopKeepsSearching(edges, entry, paths, frontier, settled);
      var targets := adjacency[Last(path)];
      forall t | t in targets
        ensures t in Keys(f)
      {
        assert (Last(path), t) in f.handoffs;
      }
      paths, frontier := ExpandPath(path, targets, paths, frontier[1..], edges, entry, settled);
      settled := settled + {Last(path)};
      SortKeepsSearching(edges, entry, paths, frontier, settled);
      frontier := Sort(Before, frontier);
    }
    if paths.Keys != Keys(f) {
      forall a | Reaches(edges, entry, a)
        ensures a in paths
      {
        var w :| Walk(edges, entry, w) && Last(w) == a;
        ClosedSetContainsWalks(edges, entry, paths.Keys, w);
      }
      return Err(OutsideGraph);
    }
    return Ok(paths);
  }

  /** One round of the search: offer `path` plus each handoff target, in order. */
  method ExpandPath(path: Path, targets: seq<string>, paths0: map<string, Path>, frontier0: seq<Path>,
      ghost edges: set<(string, string)>, ghost entry: string, ghost settled: set<string>)
    returns (paths: map<string, Path>, frontier: seq<Path>)
    requires path != [] && Last(path) in paths0 && paths0[Last(path)] == path
    requires settled <= paths0.Keys
    requires forall t :: t in targets <==> (Last(path), t) in edges
    requires Searching(edges, entry, paths0, frontier0, settled + {Last(path)})
    requires SettledClosed(edges, paths0, settled)
    requires forall q | Walk(edges, entry, q) && Before(q, path) :: Last(q) in settled
    ensures paths0.Keys <= paths.Keys <= paths0.Keys + set t | t in targets
    ensures forall a | a in paths0 :: paths[a] == paths0[a]
    ensures Searching(edges, entry, paths, frontier, settled + {Last(path)})
    ensures SettledClosed(edges, paths, settled + {Last(path)})
  {
    paths, frontier := paths0, frontier0;
    for i := 0 to |targets|
      invariant paths0.Keys <= paths.Keys <= paths0.Keys + set t | t in targets
      invariant forall a | a in paths0 :: paths[a] == paths0[a]
      invariant Searching(edges, entry, paths, frontier, settled + {Last(path)})
      invariant forall k | 0 <= k < i :: targets[k] in paths
    {
      var target := targets[i];
      var candidate := path + [target];
      assert target in targets;
      assert Walk(edges, entry, path) by {
        assert Least(edges, entry, paths[Last(path)]);
      }
      if target in paths {
        NeverOverwritten(edges, entry, paths, path, target);
      }
      if target in paths && !Before(candidate, paths[target]) {
        continue;
      }
      SettledStays(edges, paths0, paths, settled);
      FirstAssignmentLeast(edges, entry, paths, settled, path, target);
      AssignKeepsSearching(edges, entry, paths, frontier, settled + {Last(path)}, candidate);
      paths := paths[target := candidate];
      frontier := frontier + [candidate];
    }
    SettledStays(edges, paths0, paths, settled);
    SettlesPath(edges, path, targets, paths, settled);
  }

  lemma SettledStays(edges: set<(string, string)>, paths0: map<string, Path>, paths: map<string, Path>, settled: set<string>)
    requires SettledClosed(edges, paths0, settled) && paths0.Keys <= paths.Keys
    ensures SettledClosed(edges, paths, settled)
  {
  }

  lemma SettlesPath(edges: set<(string, string)>, path: Path, targets: seq<string>, paths: map<string, Path>, settled: set<string>)
    requires path != [] && SettledClosed(edges, paths, settled)
    requires forall t :: t in targets <==> (Last(path), t) in edges
    requires forall k | 0 <= k < |targets| :: targets[k] in paths
    ensures SettledClosed(edges, paths, settled + {Last(path)})
  {
    forall e | e in edges && e.0 in settled + {Last(path)}
      ensures e.1 in paths
    {
      if e.0 == Last(path) {
        assert e == (Last(path), e.1);
        assert e.1 in targets;
      }
    }
  }

  // ----- what a frozen path set is ---------------------------------------------

  /**
   The result depends on the agents, the entry and the set of handoffs alone, not on the
   order in which the Feature declares them.
   */
  lemma CanonicalUnique(f: Feature, g: Feature, paths: map<string, Path>, other: map<string, Path>)
    requires Keys(f) == Keys(g) && f.entryAgent == g.entryAgent && Edges(f) == Edges(g)
    requires paths.Keys == Keys(f) && Canonical(Edges(f), f.entryAgent, paths)
    requires other.Keys == Keys(g) && Canonical(Edges(g), g.entryAgent, other)
    ensures paths == other
  {
    BeforeTotal();
    forall a | a in paths
      ensures paths[a] == other[a]
    {
      assert !Before(paths[a], other[a]) && !Before(other[a], paths[a]);
    }
  }

  /** Cutting a canonical path short gives the canonical path of the agent it then ends at. */
  lemma CanonicalPrefixClosed(edges: set<(string, string)>, entry: string, paths: map<string, Path>, a: string, k: nat)
    requires Canonical(edges, entry, paths)
    requires forall e | e in edges && e.0 in paths :: e.1 in paths
    requires entry in paths && a in paths && 0 < k <= |paths[a]|
    ensures paths[a][k - 1] in paths && paths[paths[a][k - 1]] == paths[a][..k]
  {
    var p := paths[a];
    ShortenWalk(edges, entry, p, k);
    var front, back := p[..k], p[k..];
    assert p == front + back;
    ClosedSetContainsWalks(edges, entry, paths.Keys, front);
    var b := p[k - 1];
    var best := paths[b];
    if best != front {
      BeforeTotal();
      assert Before(best, front);
      var shortcut := best + back;
      SpliceWalk(edges, entry, best, p, k);
      BeforeSplice(best, front, back);
      assert false;
    }
  }

  lemma SpliceWalk(edges: set<(string, string)>, entry: string, best: Path, p: Path, k: nat)
    requires Walk(edges, entry, best) && Walk(edges, entry, p)
    requires 0 < k <= |p| && Last(best) == p[k - 1]
    ensures Walk(edges, entry, best + p[k..]) && Last(best + p[k..]) == Last(p)
  {
    var w := best + p[k..];
    forall i | 0 < i < |w|
      ensures (w[i - 1], w[i]) in edges
    {
      if i >= |best| {
        var j := i - |best| + k;
        assert w[i] == p[j] && w[i - 1] == p[j - 1];
      }
    }
  }

  lemma {:induction false} BeforeSplice(p: Path, q: Path, tail: Path)
    requires Before(p, q)
    ensures Before(p + tail, q + tail)
    decreases |tail|
  {
    if tail == [] {
      assert p + tail == p && q + tail == q;
    } else {
      StrLessTotal();
      if |p| == |q| {
        LexAppend(StrLess, p, q, tail[0], tail[0]);
      }
      BeforeSplice(p + [tail[0]], q + [tail[0]], tail[1..]);
      assert p + tail == p + [tail[0]] + tail[1..];
      assert q + tail == q + [tail[0]] + tail[1..];
    }
  }

  /** A canonical path never visits an agent twice. */
  lemma CanonicalSimple(edges: set<(string, string)>, entry: string, p: Path)
    requires Least(edges, entry, p)
    ensures Distinct(p)
  {
    forall i, j | 0 <= i < j < |p|
      ensures p[i] != p[j]
    {
      if p[i] == p[j] {
        ShortenWalk(edges, entry, p, i + 1);
        SpliceWalk(edges, entry, p[..i + 1], p, j + 1);
        assert false;
      }
    }
  }
}
