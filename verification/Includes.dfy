/** The include walker: it expands the captured documents that the root document includes, directly or through
    others, each of them once. */
module Includes {
  import opened Base
  import opened Graphs
  import opened DepthFirst
  import opened Paths

  const MAX_INCLUDE_DEPTH: nat := 16
  const MAX_DOCUMENTS: nat := 64
  const MAX_DOCUMENT_BYTES: nat := 1024 * 1024
  const MAX_TOTAL_BYTES: nat := 4 * 1024 * 1024

  /** A captured document is named by its path below the source root. */
  type DocumentPath = seq<Bytes>

  datatype Target = External(raw: Bytes) | Within(path: RelativePath)

  /** An include, or any other node: some of these are only allowed in the root document. */
  datatype Node = Include(target: Target, optional: bool) | Other(rootOnly: bool)

  datatype Document = Document(size: nat, readable: bool, nodes: seq<Node>)

  type Sources = map<DocumentPath, Document>

  datatype IncludeError = TooDeep | CycleFound | TooManyDocuments | NotCaptured | TooLarge | TooManyBytes | Unreadable | Escape | RootOnly

  // ----- What an include refers to

  function Directory(document: DocumentPath): RelativePath {
    if document == [] then [] else seq(|document| - 1, i requires 0 <= i < |document| - 1 => Normal(document[i]))
  }

  /** The document an include names, or none when it leads above the source root. */
  function Referenced(including: DocumentPath, path: RelativePath): Option<DocumentPath> {
    var at := PlaceOf(Directory(including) + path);
    if at.ups > 0 then None else Some(at.names)
  }

  /** An include is rejected exactly when some prefix of its path leads above the source root. */
  lemma EscapeMeans(including: DocumentPath, path: RelativePath)
    ensures var joined := Directory(including) + path;
      Referenced(including, path).None? <==> exists n :: 0 <= n <= |joined| && Level(joined[..n]) < 0
  {
    hide Level, PlaceOf;
    var joined := Directory(including) + path;
    EscapesAbove(joined);
  }

  /** Normalises the path below the including document's directory, and refuses one that starts with `..`. */
  method ResolveInclude(including: DocumentPath, path: RelativePath) returns (r: Option<DocumentPath>)
    ensures r == Referenced(including, path)
  {
    hide Level, PlaceOf;
    var joined: RelativePath := Directory(including) + path;
    assert forall i :: 0 <= i < |joined| ==> joined[i] in joined;
    var normalized := NormalizeLexical(joined);
    LevelOfPlace(joined);
    FirstRendered(PlaceOf(joined));
    if Escapes(normalized) {
      return None;
    }
    NamesOfPlace(PlaceOf(joined));
    r := Some(NamesAlong(normalized));
  }

  ghost function Includes(sources: Sources): (DocumentPath, DocumentPath) -> bool {
    (a, b) => a in sources && b in sources && exists n :: n in sources[a].nodes && Leads(a, n, b)
  }

  ghost predicate Leads(a: DocumentPath, n: Node, b: DocumentPath) {
    n.Include? && n.target.Within? && Referenced(a, n.target.path) == Some(b)
  }

  /** An include that can be followed or skipped. */
  ghost predicate NodeHolds(sources: Sources, a: DocumentPath, isRoot: bool, n: Node) {
    match n
    case Other(rootOnly) => isRoot || !rootOnly
    case Include(External(_), _) => true
    case Include(Within(path), optional) =>
      var target := Referenced(a, path);
      target.Some? && (optional || target.value in sources)
  }

  ghost predicate DocumentHolds(sources: Sources, root: DocumentPath, a: DocumentPath) {
    && a in sources && sources[a].size <= MAX_DOCUMENT_BYTES && sources[a].readable
    && forall n :: n in sources[a].nodes ==> NodeHolds(sources, a, a == root, n)
  }

  // ----- The walk

  ghost function BytesOf(sources: Sources, documents: seq<DocumentPath>): nat {
    Weigh(documents, d => if d in sources then sources[d].size else 0)
  }

  /** The open documents are the include chain; finished ones are closed under includes. */
  ghost predicate Walking(sources: Sources, root: DocumentPath, stack: seq<DocumentPath>, visited: set<DocumentPath>,
                          expanded: seq<DocumentPath>, order: map<DocumentPath, nat>)
  {
    && (forall d :: d in visited <==> d in stack || d in order)
    && (forall d :: d in visited <==> d in expanded) && Distinct(expanded) && visited <= sources.Keys
    && (forall d :: d in stack ==> d !in order) && Distinct(stack)
    && (stack != [] ==> stack[0] == root) && (stack == [] ==> visited == {} || root in order)
    && IsWalk(Includes(sources), stack) && Finished(Includes(sources), order) && Numbered(order)
    && (forall d :: d in visited ==> Reaches(Includes(sources), root, d))
    && (forall d :: d in order ==> DocumentHolds(sources, root, d))
  }

  /** `d` is included by the document on top of the stack, or is the root. */
  ghost predicate Next(sources: Sources, root: DocumentPath, stack: seq<DocumentPath>, d: DocumentPath) {
    && (stack == [] ==> d == root)
    && (stack != [] ==> Includes(sources)(stack[|stack| - 1], d) && Reaches(Includes(sources), root, d))
  }

  /** A reason to stop, found among the documents that the root includes. */
  ghost predicate Explained(sources: Sources, root: DocumentPath, error: IncludeError) {
    match error
    case TooDeep => exists w :: |w| > MAX_INCLUDE_DEPTH && w[0] == root && IsWalk(Includes(sources), w)
    case CycleFound => exists w :: IsCycle(Includes(sources), w) && Reaches(Includes(sources), root, w[0])
    case TooManyDocuments => exists some :: ReachableDocuments(sources, root, some) && |some| >= MAX_DOCUMENTS
    case TooManyBytes => exists some :: ReachableDocuments(sources, root, some) && BytesOf(sources, some) > MAX_TOTAL_BYTES
    case TooLarge => exists d :: Reaches(Includes(sources), root, d) && d in sources && sources[d].size > MAX_DOCUMENT_BYTES
    case Unreadable => exists d :: Reaches(Includes(sources), root, d) && d in sources && !sources[d].readable
    case NotCaptured => root !in sources || exists d, n :: Refuses(sources, root, d, n)
    case Escape => exists d, n :: Refuses(sources, root, d, n)
    case RootOnly => exists d, n :: Refuses(sources, root, d, n)
  }

  ghost predicate ReachableDocuments(sources: Sources, root: DocumentPath, some: seq<DocumentPath>) {
    Distinct(some) && forall d :: d in some ==> Reaches(Includes(sources), root, d)
  }

  ghost predicate Refuses(sources: Sources, root: DocumentPath, d: DocumentPath, n: Node) {
    Reaches(Includes(sources), root, d) && d in sources && n in sources[d].nodes && !NodeHolds(sources, d, d == root, n)
  }

  class Walker {
    const sources: Sources
    var stack: seq<DocumentPath>
    var visited: set<DocumentPath>
    var seenCount: nat
    var totalBytes: nat
    var expanded: seq<DocumentPath>
    var skipped: seq<Bytes>
    ghost var order: map<DocumentPath, nat>

    constructor (captured: Sources)
      ensures sources == captured && stack == [] && visited == {} && expanded == [] && order == map[] && seenCount == 0 && totalBytes == 0
    {
      sources, stack, visited, seenCount, totalBytes, expanded, skipped, order := captured, [], {}, 0, 0, [], [], map[];
    }

    ghost predicate Valid(root: DocumentPath)
      reads this
    {
      && Walking(sources, root, stack, visited, expanded, order)
      && seenCount == |expanded| <= MAX_DOCUMENTS && totalBytes == BytesOf(sources, expanded) <= MAX_TOTAL_BYTES
    }

    /** Expands a document and everything it includes. */
    method ExpandDocument(path: DocumentPath, isRoot: bool, ghost root: DocumentPath) returns (r: Result<(), IncludeError>)
      requires Valid(root) && Next(sources, root, stack, path) && (isRoot <==> stack == [])
      modifies this
      ensures old(visited) <= visited
      ensures r.Success? ==> Valid(root) && stack == old(stack) && path in order && old(order).Keys <= order.Keys
      ensures r.Failure? ==> Explained(sources, root, r.error)
      decreases sources.Keys - visited, 0
    {
      hide Walking, Next, Explained, BytesOf, Reaches;
      StartReaches(sources, root, stack, path);
      if |stack| >= MAX_INCLUDE_DEPTH {
        ChainTooLong(sources, root, stack, visited, expanded, order, path);
        return Failure(TooDeep);
      }
      if path in stack {
        ChainRepeats(sources, root, stack, visited, expanded, order, path);
        return Failure(CycleFound);
      }
      if seenCount >= MAX_DOCUMENTS {
        Enough(sources, root, stack, visited, expanded, order);
        return Failure(TooManyDocuments);
      }
      if path in visited {
        AlreadyDone(sources, root, stack, visited, expanded, order, path);
        return Success(());
      }
      if path !in sources {
        RootMissing(sources, root, stack, path);
        visited := visited + {path};
        return Failure(NotCaptured);
      }
      var document := sources[path];
      if document.size > MAX_DOCUMENT_BYTES {
        FoundIn(sources, root, path);
        visited := visited + {path};
        return Failure(TooLarge);
      }
      OpenDocument(sources, root, stack, visited, expanded, order, path);
      ghost var before := stack;
      visited, totalBytes, seenCount, expanded := visited + {path}, totalBytes + document.size, seenCount + 1, expanded + [path];
      if totalBytes > MAX_TOTAL_BYTES {
        Heavy(sources, root, before + [path], visited, expanded, order);
        return Failure(TooManyBytes);
      }
      if !document.readable {
        FoundIn(sources, root, path);
        return Failure(Unreadable);
      }
      stack := stack + [path];
      r := ExpandNodes(path, document, isRoot, root);
      if r.Failure? {
        return;
      }
      CloseDocument(sources, root, before, visited, expanded, order, path);
      stack := stack[..|stack| - 1];
      order := order[path := |order|];
      assert stack == before;
    }

    method ExpandNodes(path: DocumentPath, document: Document, isRoot: bool, ghost root: DocumentPath) returns (r: Result<(), IncludeError>)
      requires Valid(root) && stack != [] && stack[|stack| - 1] == path && path in sources && sources[path] == document
      requires Reaches(Includes(sources), root, path) && (isRoot <==> path == root)
      modifies this
      ensures old(visited) <= visited
      ensures r.Success? ==> Valid(root) && stack == old(stack) && old(order).Keys <= order.Keys
      ensures r.Success? ==> (forall n :: n in document.nodes ==> NodeHolds(sources, path, path == root, n))
      ensures r.Success? ==> (forall b :: Includes(sources)(path, b) ==> b in order)
      ensures r.Failure? ==> Explained(sources, root, r.error)
      decreases sources.Keys - visited, 2
    {
      hide Walking, Next, Explained, BytesOf, NodeHolds, Leads, Reaches;
      var nodes := document.nodes;
      for i := 0 to |nodes|
        invariant old(visited) <= visited && Valid(root) && stack == old(stack) && old(order).Keys <= order.Keys
        invariant forall j :: 0 <= j < i ==> NodeHolds(sources, path, path == root, nodes[j])
        invariant forall j, b :: 0 <= j < i && b in sources && Leads(path, nodes[j], b) ==> b in order
      {
        assert nodes[i] in nodes;
        r := ExpandNode(path, nodes[i], isRoot, root);
        if r.Failure? {
          return;
        }
      }
      r := Success(());
    }

    /** One node of the document on top of the stack. */
    method ExpandNode(path: DocumentPath, node: Node, isRoot: bool, ghost root: DocumentPath) returns (r: Result<(), IncludeError>)
      requires Valid(root) && stack != [] && stack[|stack| - 1] == path && path in sources && node in sources[path].nodes
      requires Reaches(Includes(sources), root, path) && (isRoot <==> path == root)
      modifies this
      ensures old(visited) <= visited
      ensures r.Success? ==> Valid(root) && stack == old(stack) && old(order).Keys <= order.Keys
      ensures r.Success? ==> NodeHolds(sources, path, path == root, node)
      ensures r.Success? ==> (forall b :: b in sources && Leads(path, node, b) ==> b in order)
      ensures r.Failure? ==> Explained(sources, root, r.error)
      decreases sources.Keys - visited, 1
    {
      hide Walking, Next, BytesOf, Reaches, Explained;
      match node {
        case Other(rootOnly) =>
          if !isRoot && rootOnly {
            Refused(sources, root, path, node, RootOnly);
            return Failure(RootOnly);
          }
          r := Success(());
        case Include(External(raw), _) =>
          if raw !in skipped {
            skipped := skipped + [raw];
          }
          r := Success(());
        case Include(Within(components), optional) =>
          var target := ResolveInclude(path, components);
          if target.None? {
            Refused(sources, root, path, node, Escape);
            return Failure(Escape);
          }
          if target.value !in sources {
            if optional {
              return Success(());
            }
            Refused(sources, root, path, node, NotCaptured);
            return Failure(NotCaptured);
          }
          FollowInclude(sources, root, stack, node, target.value);
          r := ExpandDocument(target.value, false, root);
      }
    }
  }

  lemma StartReaches(sources: Sources, root: DocumentPath, stack: seq<DocumentPath>, d: DocumentPath)
    requires Next(sources, root, stack, d)
    ensures Reaches(Includes(sources), root, d) && (stack == [] ==> d == root)
  {
    if stack == [] {
      ReachesItself(Includes(sources), root);
    }
  }

  lemma ChainTooLong(sources: Sources, root: DocumentPath, stack: seq<DocumentPath>, visited: set<DocumentPath>,
                     expanded: seq<DocumentPath>, order: map<DocumentPath, nat>, d: DocumentPath)
    requires Walking(sources, root, stack, visited, expanded, order) && Next(sources, root, stack, d) && |stack| >= MAX_INCLUDE_DEPTH
    ensures Explained(sources, root, TooDeep)
  {
    var w := stack + [d];
    ExtendWalk(Includes(sources), stack, d);
    assert |w| > MAX_INCLUDE_DEPTH && w[0] == root && IsWalk(Includes(sources), w);
  }

  lemma ChainRepeats(sources: Sources, root: DocumentPath, stack: seq<DocumentPath>, visited: set<DocumentPath>,
                     expanded: seq<DocumentPath>, order: map<DocumentPath, nat>, d: DocumentPath)
    requires Walking(sources, root, stack, visited, expanded, order) && Next(sources, root, stack, d) && d in stack
    ensures Explained(sources, root, CycleFound)
  {
    var cycle := BackEdge(Includes(sources), stack, d);
  }

  lemma Enough(sources: Sources, root: DocumentPath, stack: seq<DocumentPath>, visited: set<DocumentPath>,
               expanded: seq<DocumentPath>, order: map<DocumentPath, nat>)
    requires Walking(sources, root, stack, visited, expanded, order) && |expanded| >= MAX_DOCUMENTS
    ensures Explained(sources, root, TooManyDocuments)
  {
    hide Reaches;
    assert ReachableDocuments(sources, root, expanded);
  }

  lemma Heavy(sources: Sources, root: DocumentPath, stack: seq<DocumentPath>, visited: set<DocumentPath>,
              expanded: seq<DocumentPath>, order: map<DocumentPath, nat>)
    requires Walking(sources, root, stack, visited, expanded, order) && BytesOf(sources, expanded) > MAX_TOTAL_BYTES
    ensures Explained(sources, root, TooManyBytes)
  {
    hide Reaches, BytesOf;
    assert ReachableDocuments(sources, root, expanded);
  }

  lemma AlreadyDone(sources: Sources, root: DocumentPath, stack: seq<DocumentPath>, visited: set<DocumentPath>,
                    expanded: seq<DocumentPath>, order: map<DocumentPath, nat>, d: DocumentPath)
    requires Walking(sources, root, stack, visited, expanded, order) && d in visited && d !in stack
    ensures d in order
  {
  }

  lemma RootMissing(sources: Sources, root: DocumentPath, stack: seq<DocumentPath>, d: DocumentPath)
    requires Next(sources, root, stack, d) && d !in sources
    ensures Explained(sources, root, NotCaptured)
  {
  }

  lemma FoundIn(sources: Sources, root: DocumentPath, d: DocumentPath)
    requires Reaches(Includes(sources), root, d) && d in sources
    ensures sources[d].size > MAX_DOCUMENT_BYTES ==> Explained(sources, root, TooLarge)
    ensures !sources[d].readable ==> Explained(sources, root, Unreadable)
  {
    hide Reaches;
  }

  lemma Refused(sources: Sources, root: DocumentPath, d: DocumentPath, n: Node, error: IncludeError)
    requires Reaches(Includes(sources), root, d) && d in sources && n in sources[d].nodes && !NodeHolds(sources, d, d == root, n)
    requires error in {RootOnly, Escape, NotCaptured}
    ensures Explained(sources, root, error)
  {
    hide Reaches;
    assert Refuses(sources, root, d, n);
  }

  lemma FollowInclude(sources: Sources, root: DocumentPath, stack: seq<DocumentPath>, n: Node, d: DocumentPath)
    requires stack != [] && stack[|stack| - 1] in sources && n in sources[stack[|stack| - 1]].nodes && d in sources
    requires Leads(stack[|stack| - 1], n, d) && Reaches(Includes(sources), root, stack[|stack| - 1])
    ensures Next(sources, root, stack, d)
  {
    hide Reaches;
    ReachesNext(Includes(sources), root, stack[|stack| - 1], d);
  }

  lemma OpenDocument(sources: Sources, root: DocumentPath, stack: seq<DocumentPath>, visited: set<DocumentPath>,
                     expanded: seq<DocumentPath>, order: map<DocumentPath, nat>, d: DocumentPath)
    requires Walking(sources, root, stack, visited, expanded, order) && Next(sources, root, stack, d)
    requires d !in visited && d in sources && Reaches(Includes(sources), root, d)
    ensures Walking(sources, root, stack + [d], visited + {d}, expanded + [d], order)
    ensures BytesOf(sources, expanded + [d]) == BytesOf(sources, expanded) + sources[d].size
    ensures stack != [] ==> d != root
  {
    hide Reaches, Finished, Numbered, IsWalk, DocumentHolds, Includes, BytesOf;
    ExtendWalk(Includes(sources), stack, d) by {
      NextIsEdge(sources, root, stack, d);
    }
    OneMore(sources, expanded, d);
    assert d !in stack && d !in expanded;
    if stack != [] {
      assert stack[0] in stack;
    }
    assert (stack + [d])[0] == root;
  }

  lemma NextIsEdge(sources: Sources, root: DocumentPath, stack: seq<DocumentPath>, d: DocumentPath)
    requires Next(sources, root, stack, d)
    ensures stack != [] ==> Includes(sources)(stack[|stack| - 1], d)
    ensures stack == [] ==> d == root
  {
    hide Reaches, Includes;
  }

  lemma OneMore(sources: Sources, expanded: seq<DocumentPath>, d: DocumentPath)
    requires d in sources
    ensures BytesOf(sources, expanded + [d]) == BytesOf(sources, expanded) + sources[d].size
  {
    WeighAppend(expanded, [d], (e: DocumentPath) => if e in sources then sources[e].size else 0);
    assert [d][1..] == [];
  }

  lemma CloseDocument(sources: Sources, root: DocumentPath, stack: seq<DocumentPath>, visited: set<DocumentPath>,
                      expanded: seq<DocumentPath>, order: map<DocumentPath, nat>, d: DocumentPath)
    requires Walking(sources, root, stack + [d], visited, expanded, order) && DocumentHolds(sources, root, d)
    requires forall b :: Includes(sources)(d, b) ==> b in order
    ensures Walking(sources, root, stack, visited, expanded, order[d := |order|])
  {
    hide Reaches, Finished, Numbered, DocumentHolds;
    var longer := stack + [d];
    assert longer[|stack|] == d && d in longer;
    assert forall i :: 0 <= i < |stack| ==> longer[i] == stack[i];
    assert forall e :: e in longer <==> e in stack || e == d;
    FinishOne(Includes(sources), order, d);
    assert stack == [] ==> longer[0] == root;
  }

  // ----- The closure

  /** The closure of the root, expanded: each document once, no include cycle, every include sound. */
  ghost predicate Expanded(sources: Sources, root: DocumentPath, documents: seq<DocumentPath>) {
    && Distinct(documents)
    && (forall d :: d in documents <==> Reaches(Includes(sources), root, d))
    && (forall d :: d in documents ==> DocumentHolds(sources, root, d))
    && (forall w :: w != [] && w[0] in documents ==> !IsCycle(Includes(sources), w))
    && |documents| <= MAX_DOCUMENTS && BytesOf(sources, documents) <= MAX_TOTAL_BYTES
  }

  lemma WalkDone(sources: Sources, root: DocumentPath, visited: set<DocumentPath>, expanded: seq<DocumentPath>, order: map<DocumentPath, nat>)
    requires Walking(sources, root, [], visited, expanded, order) && root in order
    requires |expanded| <= MAX_DOCUMENTS && BytesOf(sources, expanded) <= MAX_TOTAL_BYTES
    ensures Expanded(sources, root, expanded)
  {
    hide Reaches, DocumentHolds, BytesOf, IsWalk, IsCycle;
    FinishedReaches(Includes(sources), order, root);
    forall w | w != [] && w[0] in expanded ensures !IsCycle(Includes(sources), w) {
      NoCycleThrough(Includes(sources), order, w);
    }
  }

  /** No include chain is too long, and there are fewer documents than the limit, so that neither test can fire
      early because of the order in which documents are met. */
  ghost predicate WellWithinLimits(sources: Sources, root: DocumentPath) {
    && (forall w :: w != [] && w[0] == root && IsWalk(Includes(sources), w) ==> |w| <= MAX_INCLUDE_DEPTH)
    && forall some :: ReachableDocuments(sources, root, some) ==> |some| < MAX_DOCUMENTS
  }

  /** Every document that the root includes is sound, there is no include cycle, and the byte limit holds. */
  ghost predicate SoundClosure(sources: Sources, root: DocumentPath) {
    && (forall d :: Reaches(Includes(sources), root, d) ==> DocumentHolds(sources, root, d))
    && (forall w :: w != [] && Reaches(Includes(sources), root, w[0]) ==> !IsCycle(Includes(sources), w))
    && forall some :: ReachableDocuments(sources, root, some) ==> BytesOf(sources, some) <= MAX_TOTAL_BYTES
  }

  lemma DistinctOnce<T>(some: seq<T>, all: seq<T>)
    requires Distinct(some) && forall x :: x in some ==> x in all
    ensures multiset(some) <= multiset(all)
  {
    forall x ensures multiset(some)[x] <= multiset(all)[x] {
      OnceOrNever(some, x);
    }
  }

  lemma {:induction false} OnceOrNever<T>(some: seq<T>, x: T)
    requires Distinct(some)
    ensures multiset(some)[x] <= 1 && (x !in some ==> multiset(some)[x] == 0)
  {
    if some != [] {
      var last := |some| - 1;
      assert some == some[..last] + [some[last]];
      OnceOrNever(some[..last], x);
    }
  }

  lemma ExpandedIsSound(sources: Sources, root: DocumentPath, documents: seq<DocumentPath>)
    requires Expanded(sources, root, documents)
    ensures SoundClosure(sources, root)
  {
    hide Reaches, DocumentHolds, IsCycle, BytesOf, Includes;
    forall some | ReachableDocuments(sources, root, some) ensures BytesOf(sources, some) <= MAX_TOTAL_BYTES {
      DistinctOnce(some, documents);
      FewerBytes(sources, some, documents);
    }
  }

  lemma FewerBytes(sources: Sources, some: seq<DocumentPath>, all: seq<DocumentPath>)
    requires multiset(some) <= multiset(all)
    ensures BytesOf(sources, some) <= BytesOf(sources, all)
  {
    WeighMonotone(some, all, d => if d in sources then sources[d].size else 0);
  }

  lemma SoundIsUnexplained(sources: Sources, root: DocumentPath, error: IncludeError)
    requires WellWithinLimits(sources, root) && SoundClosure(sources, root)
    ensures !Explained(sources, root, error)
  {
    hide Reaches, IsWalk, BytesOf, NodeHolds, Includes;
    ReachesItself(Includes(sources), root);
  }

  /** Expands a whole workspace.  Success is exactly the include closure; a failure has its reason in it. */
  method ExpandWorkspace(sources: Sources, entry: DocumentPath) returns (r: Result<seq<DocumentPath>, IncludeError>)
    ensures r.Success? ==> Expanded(sources, entry, r.value)
    ensures r.Failure? ==> Explained(sources, entry, r.error)
    ensures WellWithinLimits(sources, entry) ==> (r.Success? <==> SoundClosure(sources, entry))
  {
    hide Walking, Next, Explained, Expanded, BytesOf, WellWithinLimits, SoundClosure;
    var walker := new Walker(sources);
    StartWalk(sources, entry);
    var done := walker.ExpandDocument(entry, true, entry);
    if done.Failure? {
      if WellWithinLimits(sources, entry) && SoundClosure(sources, entry) {
        SoundIsUnexplained(sources, entry, done.error);
      }
      return Failure(done.error);
    }
    WalkDone(sources, entry, walker.visited, walker.expanded, walker.order);
    ExpandedIsSound(sources, entry, walker.expanded);
    r := Success(walker.expanded);
  }

  lemma StartWalk(sources: Sources, entry: DocumentPath)
    ensures Walking(sources, entry, [], {}, [], map[]) && Next(sources, entry, [], entry) && BytesOf(sources, []) == 0
  {
  }
}
