/**
 The walk over a course's modules: depth first, with a set of modules already seen and a guard
 on depth, over a graph that may share modules and contain cycles.
 */
module Brightspace {
  import opened Wrappers

  const TYPE_MODULE := 0
  const TYPE_TOPIC := 1
  const MAX_MODULE_DEPTH := 25

  /** An id as it stands in the platform's JSON. */
  datatype ModuleId = Number(n: int) | Text(s: string)

  /** An entry of a listing; `kind` and `id` may be missing. */
  datatype ContentObject = ContentObject(kind: Option<int>, id: Option<ModuleId>, title: string)

  /** What the platform answers; None stands for a request that raises. */
  datatype Course = Course(root: Option<seq<ContentObject>>, structure: ModuleId -> Option<seq<ContentObject>>)

  /** A request for a module's structure, and the depth at which its entries are then walked. */
  datatype Fetch = Fetch(id: ModuleId, depth: nat)

  datatype Progress = Progress(topics: seq<ContentObject>, seen: set<ModuleId>, fetches: seq<Fetch>)

  datatype Outcome = Outcome(ok: bool, progress: Progress)

  const START := Progress([], {}, [])

  // ---- The walk as a function of the state it starts in. ----

  function WalkFrom(c: Course, entries: seq<ContentObject>, depth: nat, p: Progress): Outcome
    decreases if depth > MAX_MODULE_DEPTH then 0 else MAX_MODULE_DEPTH + 1 - depth, |entries|
  {
    if depth > MAX_MODULE_DEPTH || entries == [] then Outcome(true, p)
    else
      var o := Visit(c, entries[0], depth, p);
      if o.ok then WalkFrom(c, entries[1..], depth, o.progress) else o
  }

  function Visit(c: Course, obj: ContentObject, depth: nat, p: Progress): Outcome
    requires depth <= MAX_MODULE_DEPTH
    decreases MAX_MODULE_DEPTH + 1 - depth, 0
  {
    if obj.kind == Some(TYPE_TOPIC) then Outcome(true, p.(topics := p.topics + [obj]))
    else if obj.kind == Some(TYPE_MODULE) && obj.id.Some? && obj.id.value !in p.seen then
      var entered := Enter(p, obj.id.value, depth);
      match c.structure(obj.id.value)
      case None => Outcome(false, entered)
      case Some(children) => WalkFrom(c, children, depth + 1, entered)
    else Outcome(true, p)
  }

  function Enter(p: Progress, m: ModuleId, depth: nat): Progress {
    p.(seen := p.seen + {m}, fetches := p.fetches + [Fetch(m, depth + 1)])
  }

  function WalkCourse(c: Course): Outcome {
    match c.root case None => Outcome(false, START) case Some(entries) => WalkFrom(c, entries, 0, START)
  }

  // ---- The walk as the client performs it, on two collections updated in place. ----

  class TopicWalk {
    const course: Course
    var topics: seq<ContentObject>
    var seen: set<ModuleId>
    ghost var fetches: seq<Fetch>

    ghost function Now(): Progress
      reads this
    {
      Progress(topics, seen, fetches)
    }

    constructor (course: Course)
      ensures this.course == course && Now() == START
    {
      this.course := course;
      topics, seen, fetches := [], {}, [];
    }

    method Walk(entries: seq<ContentObject>, depth: nat) returns (ok: bool)
      modifies this
      ensures Outcome(ok, Now()) == WalkFrom(course, entries, depth, old(Now()))
      decreases if depth > MAX_MODULE_DEPTH then 0 else MAX_MODULE_DEPTH + 1 - depth
    {
      if depth > MAX_MODULE_DEPTH {
        return true;
      }
      ok := true;
      for i := 0 to |entries|
        invariant WalkFrom(course, entries, depth, old(Now())) == WalkFrom(course, entries[i..], depth, Now())
      {
        var obj := entries[i];
        assert entries[i..][0] == obj && entries[i..][1..] == entries[i + 1..];
        if obj.kind == Some(TYPE_TOPIC) {
          topics := topics + [obj];
        } else if obj.kind == Some(TYPE_MODULE) {
          if obj.id.None? || obj.id.value in seen { continue; }
          seen := seen + {obj.id.value};
          fetches := fetches + [Fetch(obj.id.value, depth + 1)];
          var children := course.structure(obj.id.value);
          if children.None? { return false; }
          ok := Walk(children.value, depth + 1);
          if !ok { return; }
        }
      }
    }
  }

  /** All topics of a course, or None when some request raised. */
  method ListCourseTopics(course: Course) returns (r: Option<seq<ContentObject>>)
    ensures var o := WalkCourse(course); r == if o.ok then Some(o.progress.topics) else None
  {
    if course.root.None? { return None; }
    var walk := new TopicWalk(course);
    var ok := walk.Walk(course.root.value, 0);
    return if ok then Some(walk.topics) else None;
  }

  // ---- The graph. ----

  function ModulesOf(entries: seq<ContentObject>): (ids: set<ModuleId>)
    ensures forall m :: m in ids <==>
              exists i :: 0 <= i < |entries| && entries[i].kind == Some(TYPE_MODULE) && entries[i].id == Some(m)
  {
    set i | 0 <= i < |entries| && entries[i].kind == Some(TYPE_MODULE) && entries[i].id.Some? :: entries[i].id.value
  }

  /** How many positions of a listing hold the topic entry `t`. */
  function TopicCount(entries: seq<ContentObject>, t: ContentObject): nat {
    if entries == [] then 0
    else (if entries[0] == t && t.kind == Some(TYPE_TOPIC) then 1 else 0) + TopicCount(entries[1..], t)
  }

  /** The entries at the end of a path of modules from the root. */
  function EntriesAt(c: Course, path: seq<ModuleId>): Option<seq<ContentObject>> {
    if path == [] then c.root else c.structure(path[|path| - 1])
  }

  /** Each module of the path is listed by the one before it, the first by the root. */
  ghost predicate Path(c: Course, path: seq<ModuleId>)
    decreases |path|
  {
    path == [] ||
    (var before := path[..|path| - 1];
     && Path(c, before)
     && EntriesAt(c, before).Some?
     && path[|path| - 1] in ModulesOf(EntriesAt(c, before).value))
  }

  ghost predicate PathTo(c: Course, path: seq<ModuleId>, m: ModuleId) {
    path != [] && Path(c, path) && path[|path| - 1] == m
  }

  ghost predicate Reachable(c: Course, m: ModuleId) {
    exists path :: PathTo(c, path, m)
  }

  lemma ExtendPath(c: Course, path: seq<ModuleId>, m: ModuleId)
    requires Path(c, path) && EntriesAt(c, path).Some? && m in ModulesOf(EntriesAt(c, path).value)
    ensures PathTo(c, path + [m], m) && Reachable(c, m)
  {
    assert (path + [m])[..|path + [m]| - 1] == path;
    assert PathTo(c, path + [m], m);
  }

  /** Induction over the calls of the walk: what holds of one entry, then of the others, holds of all. */
  lemma FirstThenRest(entries: seq<ContentObject>)
    requires entries != []
    ensures ModulesOf(entries) ==
            ModulesOf(entries[1..]) + (if entries[0].kind == Some(TYPE_MODULE) && entries[0].id.Some?
              then {entries[0].id.value} else {})
  {
  }

  // ---- Each module is requested at most once. ----

  /** The log of requests names exactly the seen modules, each once. */
  ghost predicate Ledger(fetches: seq<Fetch>, seen: set<ModuleId>) {
    && (forall i, j :: 0 <= i < j < |fetches| ==> fetches[i].id != fetches[j].id)
    && (forall i :: 0 <= i < |fetches| ==> fetches[i].id in seen)
    && (forall m :: m in seen ==> Fetched(fetches, m))
    && |fetches| == |seen|
  }

  ghost predicate Fetched(fetches: seq<Fetch>, m: ModuleId) {
    exists i :: 0 <= i < |fetches| && fetches[i].id == m
  }

  lemma EnterKeepsLedger(p: Progress, m: ModuleId, depth: nat)
    requires Ledger(p.fetches, p.seen) && m !in p.seen
    ensures Ledger(Enter(p, m, depth).fetches, Enter(p, m, depth).seen)
  {
    var q := Enter(p, m, depth);
    assert q.fetches[|p.fetches|].id == m;
    forall x | x in p.seen ensures Fetched(q.fetches, x) {
      var i :| 0 <= i < |p.fetches| && p.fetches[i].id == x;
      assert q.fetches[i] == p.fetches[i];
    }
  }

  lemma {:induction false} WalkKeepsLedger(c: Course, entries: seq<ContentObject>, depth: nat, p: Progress)
    requires Ledger(p.fetches, p.seen)
    ensures var q := WalkFrom(c, entries, depth, p).progress;
            Ledger(q.fetches, q.seen) && p.fetches <= q.fetches && p.seen <= q.seen
    decreases if depth > MAX_MODULE_DEPTH then 0 else MAX_MODULE_DEPTH + 1 - depth, |entries|
  {
    if depth <= MAX_MODULE_DEPTH && entries != [] {
      VisitKeepsLedger(c, entries[0], depth, p);
      var o := Visit(c, entries[0], depth, p);
      if o.ok { WalkKeepsLedger(c, entries[1..], depth, o.progress); }
    }
  }

  lemma {:induction false} VisitKeepsLedger(c: Course, obj: ContentObject, depth: nat, p: Progress)
    requires Ledger(p.fetches, p.seen) && depth <= MAX_MODULE_DEPTH
    ensures var q := Visit(c, obj, depth, p).progress;
            Ledger(q.fetches, q.seen) && p.fetches <= q.fetches && p.seen <= q.seen
    decreases MAX_MODULE_DEPTH + 1 - depth, 0
  {
    hide Ledger;
    hide WalkFrom;
    if obj.kind == Some(TYPE_MODULE) && obj.id.Some? && obj.id.value !in p.seen {
      var entered := Enter(p, obj.id.value, depth);
      EnterKeepsLedger(p, obj.id.value, depth);
      if c.structure(obj.id.value).Some? {
        WalkKeepsLedger(c, c.structure(obj.id.value).value, depth + 1, entered);
      }
    }
  }

  // ---- Conservation: the topics found are those of the root and of every module walked. ----

  /** How often the fetched modules whose entries the depth guard lets through list the topic `t`. */
  function Harvest(c: Course, fetches: seq<Fetch>, t: ContentObject): nat {
    if fetches == [] then 0
    else
      var last := fetches[|fetches| - 1];
      var listed := c.structure(last.id);
      Harvest(c, fetches[..|fetches| - 1], t) +
      (if listed.None? || last.depth > MAX_MODULE_DEPTH then 0 else TopicCount(listed.value, t))
  }

  /** Every topic occurs as often as the root and the walked modules list it. */
  ghost predicate Conserved(c: Course, root: seq<ContentObject>, p: Progress) {
    forall t :: multiset(p.topics)[t] == TopicCount(root, t) + Harvest(c, p.fetches, t)
  }

  lemma {:induction false} WalkConservesTopics(c: Course, entries: seq<ContentObject>, depth: nat, p: Progress,
      t: ContentObject)
    requires depth <= MAX_MODULE_DEPTH && WalkFrom(c, entries, depth, p).ok
    ensures var q := WalkFrom(c, entries, depth, p).progress;
            multiset(q.topics)[t] - Harvest(c, q.fetches, t) ==
            multiset(p.topics)[t] - Harvest(c, p.fetches, t) + TopicCount(entries, t)
    decreases MAX_MODULE_DEPTH + 1 - depth, |entries|
  {
    if entries != [] {
      var o := Visit(c, entries[0], depth, p);
      VisitConservesTopics(c, entries[0], depth, p, t);
      WalkConservesTopics(c, entries[1..], depth, o.progress, t);
    }
  }

  lemma {:induction false} VisitConservesTopics(c: Course, obj: ContentObject, depth: nat, p: Progress,
      t: ContentObject)
    requires depth <= MAX_MODULE_DEPTH && Visit(c, obj, depth, p).ok
    ensures var q := Visit(c, obj, depth, p).progress;
            multiset(q.topics)[t] - Harvest(c, q.fetches, t) ==
            multiset(p.topics)[t] - Harvest(c, p.fetches, t) + (if obj == t && t.kind == Some(TYPE_TOPIC) then 1 else 0)
    decreases MAX_MODULE_DEPTH + 1 - depth, 0
  {
    if obj.kind == Some(TYPE_MODULE) && obj.id.Some? && obj.id.value !in p.seen {
      var entered := Enter(p, obj.id.value, depth);
      HarvestEntered(c, p, obj.id.value, depth, t);
      hide Harvest;
      if depth + 1 <= MAX_MODULE_DEPTH {
        WalkConservesTopics(c, c.structure(obj.id.value).value, depth + 1, entered, t);
      }
    }
  }

  lemma HarvestEntered(c: Course, p: Progress, m: ModuleId, depth: nat, t: ContentObject)
    ensures Harvest(c, Enter(p, m, depth).fetches, t) ==
            Harvest(c, p.fetches, t) +
            (if c.structure(m).None? || depth + 1 > MAX_MODULE_DEPTH then 0 else TopicCount(c.structure(m).value, t))
  {
    assert Enter(p, m, depth).fetches[..|p.fetches|] == p.fetches;
  }

  // ---- Soundness on every graph: topics come from paths of at most twenty-five modules. ----

  ghost predicate Within(c: Course, path: seq<ModuleId>, t: ContentObject) {
    && Path(c, path) && |path| <= MAX_MODULE_DEPTH
    && EntriesAt(c, path).Some? && t in EntriesAt(c, path).value && t.kind == Some(TYPE_TOPIC)
  }

  /** Every topic is an entry of the root or of a module on a short path, and every seen module is reachable. */
  ghost predicate Sound(c: Course, p: Progress) {
    && (forall t :: t in p.topics ==> exists path :: Within(c, path, t))
    && (forall m :: m in p.seen ==> Reachable(c, m))
  }

  lemma {:induction false} WalkIsSound(c: Course, entries: seq<ContentObject>, path: seq<ModuleId>, p: Progress)
    requires Sound(c, p) && Path(c, path)
    requires EntriesAt(c, path).Some? && forall i :: 0 <= i < |entries| ==> entries[i] in EntriesAt(c, path).value
    ensures Sound(c, WalkFrom(c, entries, |path|, p).progress)
    decreases if |path| > MAX_MODULE_DEPTH then 0 else MAX_MODULE_DEPTH + 1 - |path|, |entries|
  {
    if |path| <= MAX_MODULE_DEPTH && entries != [] {
      VisitIsSound(c, entries[0], path, p);
      var o := Visit(c, entries[0], |path|, p);
      if o.ok { WalkIsSound(c, entries[1..], path, o.progress); }
    }
  }

  lemma {:induction false} VisitIsSound(c: Course, obj: ContentObject, path: seq<ModuleId>, p: Progress)
    requires Sound(c, p) && Path(c, path) && |path| <= MAX_MODULE_DEPTH
    requires EntriesAt(c, path).Some? && obj in EntriesAt(c, path).value
    ensures Sound(c, Visit(c, obj, |path|, p).progress)
    decreases MAX_MODULE_DEPTH + 1 - |path|, 0
  {
    hide WalkFrom;
    hide ModulesOf;
    if obj.kind == Some(TYPE_TOPIC) {
      assert Within(c, path, obj);
    } else if obj.kind == Some(TYPE_MODULE) && obj.id.Some? && obj.id.value !in p.seen {
      var m := obj.id.value;
      ExtendPath(c, path, m);
      assert Sound(c, Enter(p, m, |path|));
      if c.structure(m).Some? {
        WalkIsSound(c, c.structure(m).value, path + [m], Enter(p, m, |path|));
      }
    }
  }

  // ---- Completeness on graphs with at most twenty-five reachable modules. ----

  /** A set of modules that contains those listed by the root and by each of its own members. */
  ghost predicate Closed(c: Course, ms: set<ModuleId>) {
    && (c.root.Some? ==> ModulesOf(c.root.value) <= ms)
    && (forall m :: m in ms && c.structure(m).Some? ==> ModulesOf(c.structure(m).value) <= ms)
  }

  /** The modules seen since `p` have answered, and all that they list has been seen too. */
  ghost predicate Finished(c: Course, p: Progress, q: Progress) {
    forall m :: m in q.seen && m !in p.seen ==> c.structure(m).Some? && ModulesOf(c.structure(m).value) <= q.seen
  }

  /** Modules entered are never deeper than their number, so with few modules the guard is never met. */
  ghost predicate Shallow(q: Progress) {
    forall i :: 0 <= i < |q.fetches| ==> q.fetches[i].depth <= MAX_MODULE_DEPTH
  }

  lemma {:induction false} WalkIsComplete(c: Course, all: set<ModuleId>, entries: seq<ContentObject>, depth: nat,
      p: Progress)
    requires Closed(c, all) && |all| <= MAX_MODULE_DEPTH
    requires ModulesOf(entries) <= all && p.seen <= all && depth <= |p.seen| && Shallow(p)
    ensures var o := WalkFrom(c, entries, depth, p);
            && p.seen <= o.progress.seen <= all && Shallow(o.progress)
            && (o.ok ==> ModulesOf(entries) <= o.progress.seen && Finished(c, p, o.progress))
            && (!o.ok ==> exists m :: m in all && c.structure(m).None?)
    decreases if depth > MAX_MODULE_DEPTH then 0 else MAX_MODULE_DEPTH + 1 - depth, |entries|
  {
    Smaller(p.seen, all);
    if entries != [] {
      FirstThenRest(entries);
      VisitIsComplete(c, all, entries[0], depth, p);
      var o := Visit(c, entries[0], depth, p);
      if o.ok {
        Smaller(p.seen, o.progress.seen);
        WalkIsComplete(c, all, entries[1..], depth, o.progress);
      }
    }
  }

  lemma {:induction false} VisitIsComplete(c: Course, all: set<ModuleId>, obj: ContentObject, depth: nat, p: Progress)
    requires Closed(c, all) && |all| <= MAX_MODULE_DEPTH
    requires p.seen <= all && depth <= |p.seen| && depth <= MAX_MODULE_DEPTH && Shallow(p)
    requires obj.kind == Some(TYPE_MODULE) && obj.id.Some? ==> obj.id.value in all
    ensures var o := Visit(c, obj, depth, p);
            && p.seen <= o.progress.seen <= all && Shallow(o.progress)
            && (o.ok ==> Finished(c, p, o.progress) &&
                         (obj.kind == Some(TYPE_MODULE) && obj.id.Some? ==> obj.id.value in o.progress.seen))
            && (!o.ok ==> exists m :: m in all && c.structure(m).None?)
    decreases MAX_MODULE_DEPTH + 1 - depth, 0
  {
    if obj.kind == Some(TYPE_MODULE) && obj.id.Some? && obj.id.value !in p.seen {
      var m := obj.id.value;
      var entered := Enter(p, m, depth);
      Smaller(entered.seen, all);
      if c.structure(m).Some? {
        WalkIsComplete(c, all, c.structure(m).value, depth + 1, entered);
      }
    }
  }

  lemma {:induction false} Smaller<T>(a: set<T>, b: set<T>)
    requires a <= b
    ensures |a| <= |b|
  {
    if |a| > 0 {
      var x :| x in a;
      Smaller(a - {x}, b - {x});
    }
  }

  lemma {:induction false} ClosedContainsPaths(c: Course, ms: set<ModuleId>, path: seq<ModuleId>)
    requires Closed(c, ms) && Path(c, path) && path != []
    ensures path[|path| - 1] in ms
  {
    var before := path[..|path| - 1];
    var listed := EntriesAt(c, before).value;
    if before == [] {
      assert c.root == Some(listed);
    } else {
      var m := before[|before| - 1];
      ClosedContainsPaths(c, ms, before);
      assert m in ms;
      assert c.structure(m) == Some(listed);
      assert ModulesOf(c.structure(m).value) <= ms;
    }
    assert path[|path| - 1] in ModulesOf(listed);
  }

  lemma ReachableIsClosed(c: Course, all: set<ModuleId>)
    requires forall m :: m in all <==> Reachable(c, m)
    ensures Closed(c, all)
  {
    if c.root.Some? {
      forall m | m in ModulesOf(c.root.value) ensures m in all { ExtendPath(c, [], m); }
    }
    forall m, n | m in all && c.structure(m).Some? && n in ModulesOf(c.structure(m).value) ensures n in all {
      var path :| PathTo(c, path, m);
      ExtendPath(c, path, n);
    }
  }

  // ---- Main results. ----

  /**
   On every graph: each module's structure is requested at most once, and every topic returned is
   an entry of the root or of a module at the end of a path of at most twenty-five modules.
   */
  lemma WalkOnAnyGraph(c: Course)
    ensures var p := WalkCourse(c).progress;
            && Sound(c, p) && Ledger(p.fetches, p.seen)
            && (WalkCourse(c).ok ==> Conserved(c, c.root.value, p))
  {
    if c.root.Some? {
      WalkKeepsLedger(c, c.root.value, 0, START);
      WalkIsSound(c, c.root.value, [], START);
      if WalkCourse(c).ok {
        forall t { WalkConservesTopics(c, c.root.value, 0, START, t); }
      }
    }
  }

  /** The number of requests never exceeds one for the root plus one for each reachable module. */
  lemma RequestsAreBounded(c: Course, all: set<ModuleId>)
    requires forall m :: Reachable(c, m) ==> m in all
    ensures |WalkCourse(c).progress.fetches| <= |all|
  {
    WalkOnAnyGraph(c);
    var seen := WalkCourse(c).progress.seen;
    forall m | m in seen ensures m in all { assert Reachable(c, m); }
    Smaller(seen, all);
  }

  /**
   With at most twenty-five reachable modules, cycles and sharing included, the walk succeeds exactly
   when every one of them answers; it then requests each reachable module once, never meets the depth
   guard, and returns every topic entry of the root and of every reachable module, once per position.
   */
  lemma WalkIsCompleteOnSmallCourses(c: Course, all: set<ModuleId>)
    requires forall m :: m in all <==> Reachable(c, m)
    requires |all| <= MAX_MODULE_DEPTH
    ensures WalkCourse(c).ok <==> c.root.Some? && forall m :: m in all ==> c.structure(m).Some?
    ensures WalkCourse(c).ok ==>
              var p := WalkCourse(c).progress;
              && p.seen == all && Ledger(p.fetches, p.seen) && Shallow(p)
              && Conserved(c, c.root.value, p)
  {
    WalkOnAnyGraph(c);
    ReachableIsClosed(c, all);
    if c.root.Some? {
      WalkIsComplete(c, all, c.root.value, 0, START);
      var o := WalkCourse(c);
      if o.ok {
        assert Closed(c, o.progress.seen);
        forall m | m in all ensures m in o.progress.seen {
          var path :| PathTo(c, path, m);
          ClosedContainsPaths(c, o.progress.seen, path);
        }
      }
    }
  }

  // ---- The order of the topics. ----

  /** The topics found so far stay where they are: what a walk finds comes after them. */
  lemma {:induction false} WalkOnlyAppends(c: Course, entries: seq<ContentObject>, depth: nat, p: Progress)
    ensures p.topics <= WalkFrom(c, entries, depth, p).progress.topics
    decreases if depth > MAX_MODULE_DEPTH then 0 else MAX_MODULE_DEPTH + 1 - depth, |entries|
  {
    if depth <= MAX_MODULE_DEPTH && entries != [] {
      VisitOnlyAppends(c, entries[0], depth, p);
      var o := Visit(c, entries[0], depth, p);
      if o.ok { WalkOnlyAppends(c, entries[1..], depth, o.progress); }
    }
  }

  lemma {:induction false} VisitOnlyAppends(c: Course, obj: ContentObject, depth: nat, p: Progress)
    requires depth <= MAX_MODULE_DEPTH
    ensures p.topics <= Visit(c, obj, depth, p).progress.topics
    decreases MAX_MODULE_DEPTH + 1 - depth, 0
  {
    if obj.kind == Some(TYPE_MODULE) && obj.id.Some? && obj.id.value !in p.seen && c.structure(obj.id.value).Some? {
      WalkOnlyAppends(c, c.structure(obj.id.value).value, depth + 1, Enter(p, obj.id.value, depth));
    }
  }

  /**
   A listing written out in document order: its topics in place, and in the place of a module its own listing
   written out, the first time that the module comes up. The modules that have come up are returned as well.
   */
  ghost function Outline(c: Course, all: set<ModuleId>, entries: seq<ContentObject>, met: set<ModuleId>)
    : (r: (seq<ContentObject>, set<ModuleId>))
    requires met <= all
    ensures met <= r.1 <= all
    decreases |all - met|, |entries|
  {
    if entries == [] then ([], met)
    else
      var first := OutlineOf(c, all, entries[0], met);
      Fewer(all, met, first.1);
      var rest := Outline(c, all, entries[1..], first.1);
      (first.0 + rest.0, rest.1)
  }

  ghost function OutlineOf(c: Course, all: set<ModuleId>, entry: ContentObject, met: set<ModuleId>)
    : (r: (seq<ContentObject>, set<ModuleId>))
    requires met <= all
    ensures met <= r.1 <= all
    decreases |all - met|, 0
  {
    match entry
    case ContentObject(Some(kind), id, _) =>
      if kind == 1 then ([entry], met)
      else if kind == 0 && id.Some? && id.value in all && id.value !in met && c.structure(id.value).Some? then
        Fewer(all, met, met + {id.value});
        Outline(c, all, c.structure(id.value).value, met + {id.value})
      else ([], met)
    case _ => ([], met)
  }

  lemma Fewer(all: set<ModuleId>, a: set<ModuleId>, b: set<ModuleId>)
    requires a <= b <= all
    ensures |all - b| <= |all - a|
    ensures a != b ==> |all - b| < |all - a|
  {
    Smaller(all - b, all - a);
    if a != b {
      var m :| m in b && m !in a;
      Smaller(all - b, (all - a) - {m});
    }
  }

  /** With at most twenty-five modules, all of which answer, the walk writes the listing out in document order. */
  lemma {:induction false} WalkFollowsOutline(c: Course, all: set<ModuleId>, entries: seq<ContentObject>, depth: nat,
      p: Progress)
    requires Closed(c, all) && |all| <= MAX_MODULE_DEPTH && forall m :: m in all ==> c.structure(m).Some?
    requires ModulesOf(entries) <= all && p.seen <= all && depth <= |p.seen|
    ensures var o, r := WalkFrom(c, entries, depth, p), Outline(c, all, entries, p.seen);
            o.ok && o.progress.topics == p.topics + r.0 && o.progress.seen == r.1
    decreases if depth > MAX_MODULE_DEPTH then 0 else MAX_MODULE_DEPTH + 1 - depth, |entries|
  {
    Smaller(p.seen, all);
    if entries != [] {
      FirstThenRest(entries);
      VisitFollowsOutline(c, all, entries[0], depth, p);
      WalkStep(c, entries, depth, p);
      OutlineStep(c, all, entries, p.seen);
      var first, o := OutlineOf(c, all, entries[0], p.seen), Visit(c, entries[0], depth, p);
      Smaller(p.seen, first.1);
      Fewer(all, p.seen, first.1);
      hide Visit;
      hide OutlineOf;
      hide ModulesOf;
      hide WalkFrom;
      hide Outline;
      hide Closed;
      WalkFollowsOutline(c, all, entries[1..], depth, o.progress);
    }
  }

  lemma WalkStep(c: Course, entries: seq<ContentObject>, depth: nat, p: Progress)
    requires depth <= MAX_MODULE_DEPTH && entries != [] && Visit(c, entries[0], depth, p).ok
    ensures WalkFrom(c, entries, depth, p) == WalkFrom(c, entries[1..], depth, Visit(c, entries[0], depth, p).progress)
  {
    hide Visit;
  }

  lemma OutlineStep(c: Course, all: set<ModuleId>, entries: seq<ContentObject>, met: set<ModuleId>)
    requires met <= all && entries != []
    ensures var first := OutlineOf(c, all, entries[0], met);
            var rest := Outline(c, all, entries[1..], first.1);
            && Outline(c, all, entries, met) == (first.0 + rest.0, rest.1)
            && forall topics: seq<ContentObject> :: (topics + first.0) + rest.0 == topics + (first.0 + rest.0)
  {
    hide OutlineOf;
    var first := OutlineOf(c, all, entries[0], met);
    Fewer(all, met, first.1);
  }

  lemma {:induction false} VisitFollowsOutline(c: Course, all: set<ModuleId>, obj: ContentObject, depth: nat,
      p: Progress)
    requires Closed(c, all) && |all| <= MAX_MODULE_DEPTH && forall m :: m in all ==> c.structure(m).Some?
    requires p.seen <= all && depth <= |p.seen| && depth <= MAX_MODULE_DEPTH
    requires obj.kind == Some(TYPE_MODULE) && obj.id.Some? ==> obj.id.value in all
    ensures var o, r := Visit(c, obj, depth, p), OutlineOf(c, all, obj, p.seen);
            o.ok && o.progress.topics == p.topics + r.0 && o.progress.seen == r.1
    decreases MAX_MODULE_DEPTH + 1 - depth, 0
  {
    hide WalkFrom;
    hide Outline;
    if obj.kind == Some(TYPE_MODULE) && obj.id.Some? && obj.id.value !in p.seen {
      var m := obj.id.value;
      Fewer(all, p.seen, p.seen + {m});
      assert ModulesOf(c.structure(m).value) <= all;
      WalkFollowsOutline(c, all, c.structure(m).value, depth + 1, Enter(p, m, depth));
    }
  }

  /**
   The answer for a course of at most twenty-five reachable modules, all of which answer: its topics in document order.
   */
  lemma TopicsComeInDocumentOrder(c: Course, all: set<ModuleId>)
    requires Answering(c, all) && |all| <= 25
    ensures WalkCourse(c).ok && WalkCourse(c).progress.topics == Outline(c, all, c.root.value, {}).0
  {
    ReachableIsClosed(c, all);
    WalkFollowsOutline(c, all, c.root.value, 0, START);
  }

  /** The topics of a listing without modules are just its topics, in its order. */
  lemma {:induction false} FlatListingsKeepOrder(c: Course, all: set<ModuleId>, entries: seq<ContentObject>,
      met: set<ModuleId>)
    requires met <= all && forall i :: 0 <= i < |entries| ==> entries[i].kind == Some(1)
    ensures Outline(c, all, entries, met) == (entries, met)
  {
    if entries != [] {
      FlatListingsKeepOrder(c, all, entries[1..], met);
      assert entries == [entries[0]] + entries[1..];
    }
  }

  // ---- Twenty-five is exactly how many modules a course may have. ----

  /** The path of modules ends at a listing of this topic. */
  ghost predicate TopicAt(c: Course, path: seq<ModuleId>, t: ContentObject) {
    Path(c, path) && EntriesAt(c, path).Some? && t in EntriesAt(c, path).value && t.kind == Some(TYPE_TOPIC)
  }

  /** Every topic at the end of every path of modules is found. */
  ghost predicate FindsEverything(c: Course) {
    && WalkCourse(c).ok
    && forall path, t :: TopicAt(c, path, t) ==> t in WalkCourse(c).progress.topics
  }

  /** The course has exactly these reachable modules, and it and they answer. */
  ghost predicate Answering(c: Course, all: set<ModuleId>) {
    && c.root.Some?
    && (forall m :: m in all <==> Reachable(c, m))
    && (forall m :: m in all ==> c.structure(m).Some?)
  }

  lemma {:induction false} ListedIsCounted(entries: seq<ContentObject>, t: ContentObject)
    requires t in entries && t.kind == Some(TYPE_TOPIC)
    ensures TopicCount(entries, t) > 0
  {
    if entries[0] != t { ListedIsCounted(entries[1..], t); }
  }

  lemma {:induction false} FetchedIsHarvested(c: Course, fetches: seq<Fetch>, i: nat, t: ContentObject)
    requires i < |fetches| && fetches[i].depth <= MAX_MODULE_DEPTH
    requires c.structure(fetches[i].id).Some? && TopicCount(c.structure(fetches[i].id).value, t) > 0
    ensures Harvest(c, fetches, t) > 0
  {
    if i < |fetches| - 1 { FetchedIsHarvested(c, fetches[..|fetches| - 1], i, t); }
  }

  lemma SmallCoursesAreFoundWhole(c: Course, all: set<ModuleId>)
    requires Answering(c, all) && |all| <= MAX_MODULE_DEPTH
    ensures FindsEverything(c)
  {
    WalkIsCompleteOnSmallCourses(c, all);
    var p := WalkCourse(c).progress;
    forall path, t | TopicAt(c, path, t) ensures t in p.topics
    {
      ListedIsCounted(EntriesAt(c, path).value, t);
      if path != [] {
        var m := path[|path| - 1];
        assert PathTo(c, path, m);
        assert m in all;
        assert Fetched(p.fetches, m);
        var i :| 0 <= i < |p.fetches| && p.fetches[i].id == m;
        FetchedIsHarvested(c, p.fetches, i, t);
      }
      assert multiset(p.topics)[t] > 0;
    }
  }

  /**
   A chain of `n` modules, the last of which lists a topic; `shortcut` adds a second link to that
   last module, directly in the root.
   */
  function Chain(n: nat, shortcut: bool): Course {
    Course(Some([Link(1)] + if shortcut then [Link(n)] else []),
           (m: ModuleId) => if m.Number? && 1 <= m.n < n then Some([Link(m.n + 1)]) else Some([EndTopic()]))
  }

  function Link(n: int): ContentObject { ContentObject(Some(TYPE_MODULE), Some(Number(n)), "") }

  function EndTopic(): ContentObject { ContentObject(Some(TYPE_TOPIC), None, "end") }

  function Numbers(after: nat, last: nat): set<ModuleId> {
    set k | after < k <= last :: Number(k)
  }

  /** The requests made on the way down from a depth: each module numbered by its depth, to one below the guard. */
  function Descent(depth: nat): seq<Fetch>
    requires depth <= MAX_MODULE_DEPTH + 1
    decreases MAX_MODULE_DEPTH + 1 - depth
  {
    if depth == MAX_MODULE_DEPTH + 1 then [] else [Fetch(Number(depth + 1), depth + 1)] + Descent(depth + 1)
  }

  lemma WalkOne(c: Course, obj: ContentObject, depth: nat, p: Progress)
    requires depth <= MAX_MODULE_DEPTH && Visit(c, obj, depth, p).ok
    ensures WalkFrom(c, [obj], depth, p) == Visit(c, obj, depth, p)
  {
    hide Visit;
    assert [obj][1..] == [];
  }

  lemma WalkTwo(c: Course, first: ContentObject, second: ContentObject, depth: nat, p: Progress)
    requires depth <= MAX_MODULE_DEPTH && Visit(c, first, depth, p).ok
    ensures WalkFrom(c, [first, second], depth, p) == WalkFrom(c, [second], depth, Visit(c, first, depth, p).progress)
  {
    hide Visit;
    assert [first, second][1..] == [second];
  }

  lemma VisitInChain(n: nat, shortcut: bool, depth: nat, p: Progress)
    requires depth <= MAX_MODULE_DEPTH && depth + 1 < n && Number(depth + 1) !in p.seen
    ensures Visit(Chain(n, shortcut), Link(depth + 1), depth, p) ==
            WalkFrom(Chain(n, shortcut), [Link(depth + 2)], depth + 1, Enter(p, Number(depth + 1), depth))
  {
    hide WalkFrom;
  }

  /** The module below the guard is requested, whatever it lists, and its entries are passed over. */
  lemma VisitAtGuard(n: nat, shortcut: bool, p: Progress)
    requires Number(MAX_MODULE_DEPTH + 1) !in p.seen
    ensures Visit(Chain(n, shortcut), Link(MAX_MODULE_DEPTH + 1), MAX_MODULE_DEPTH, p) ==
            Outcome(true, Enter(p, Number(MAX_MODULE_DEPTH + 1), MAX_MODULE_DEPTH))
  {
  }

  /** The walk down a long chain, from any depth, requests the modules down to the twenty-sixth and finds nothing. */
  lemma {:induction false} ChainIsCutOff(n: nat, shortcut: bool, depth: nat, p: Progress)
    requires depth <= MAX_MODULE_DEPTH < n && forall k :: depth < k <= MAX_MODULE_DEPTH + 1 ==> Number(k) !in p.seen
    ensures Visit(Chain(n, shortcut), Link(depth + 1), depth, p) ==
            Outcome(true, Progress(p.topics, p.seen + Numbers(depth, MAX_MODULE_DEPTH + 1), p.fetches + Descent(depth)))
    decreases MAX_MODULE_DEPTH - depth
  {
    hide WalkFrom;
    hide Visit;
    hide Chain;
    hide Link;
    hide Descent;
    hide Numbers;
    if depth < MAX_MODULE_DEPTH {
      var entered := Enter(p, Number(depth + 1), depth);
      VisitInChain(n, shortcut, depth, p);
      ChainIsCutOff(n, shortcut, depth + 1, entered);
      WalkOne(Chain(n, shortcut), Link(depth + 2), depth + 1, entered);
    } else {
      VisitAtGuard(n, shortcut, p);
    }
    DescentFrom(depth, p.fetches, p.seen);
  }

  lemma DescentFrom(depth: nat, fetches: seq<Fetch>, seen: set<ModuleId>)
    requires depth <= MAX_MODULE_DEPTH
    ensures seen + Numbers(depth, MAX_MODULE_DEPTH + 1) == seen + {Number(depth + 1)}
              + Numbers(depth + 1, MAX_MODULE_DEPTH + 1)
    ensures fetches + Descent(depth) == fetches + [Fetch(Number(depth + 1), depth + 1)] + Descent(depth + 1)
    ensures depth == MAX_MODULE_DEPTH ==>
              seen + Numbers(depth, MAX_MODULE_DEPTH + 1) == seen + {Number(depth + 1)} &&
              fetches + Descent(depth) == fetches + [Fetch(Number(depth + 1), depth + 1)]
  {
    assert Numbers(depth, MAX_MODULE_DEPTH + 1) == {Number(depth + 1)} + Numbers(depth + 1, MAX_MODULE_DEPTH + 1);
    if depth == MAX_MODULE_DEPTH {
      assert Numbers(depth + 1, MAX_MODULE_DEPTH + 1) == {} && Descent(depth + 1) == [];
    }
  }

  lemma {:induction false} ChainReaches(n: nat, shortcut: bool, k: nat) returns (path: seq<ModuleId>)
    requires 1 <= k <= n
    ensures PathTo(Chain(n, shortcut), path, Number(k))
  {
    var c := Chain(n, shortcut);
    if k == 1 {
      assert c.root.value[0] == Link(1);
      ExtendPath(c, [], Number(1));
      path := [Number(1)];
    } else {
      var before := ChainReaches(n, shortcut, k - 1);
      assert EntriesAt(c, before).value[0] == Link(k);
      ExtendPath(c, before, Number(k));
      path := before + [Number(k)];
    }
  }

  /** A chain reaches its own modules and no others. */
  lemma ChainModules(n: nat, shortcut: bool)
    requires n >= 1
    ensures Answering(Chain(n, shortcut), Numbers(0, n))
    ensures |Numbers(0, n)| == n
  {
    var c, all := Chain(n, shortcut), Numbers(0, n);
    forall m | m in all ensures Reachable(c, m) { var path := ChainReaches(n, shortcut, m.n); }
    assert Closed(c, all);
    forall m | Reachable(c, m) ensures m in all {
      var path :| PathTo(c, path, m);
      ClosedContainsPaths(c, all, path);
    }
    CountNumbers(n);
  }

  lemma {:induction false} CountNumbers(n: nat)
    ensures |Numbers(0, n)| == n
  {
    if n > 0 {
      CountNumbers(n - 1);
      assert Numbers(0, n) == Numbers(0, n - 1) + {Number(n)};
    }
  }

  /**
   On a chain of more than twenty-five modules the twenty-sixth is the last one requested, its entries are not
   walked, and no topic is found; a second link to the last module in the root itself does not help when the
   walk meets that module first at the end of a chain of twenty-six.
   */
  lemma LongChainsLoseTopics(n: nat, shortcut: bool)
    requires n > MAX_MODULE_DEPTH && (shortcut ==> n == MAX_MODULE_DEPTH + 1)
    ensures var p := WalkCourse(Chain(n, shortcut)).progress;
            && WalkCourse(Chain(n, shortcut)).ok && p.topics == []
            && p.fetches == Descent(0)
    ensures !FindsEverything(Chain(n, shortcut))
    ensures shortcut ==> PathTo(Chain(n, shortcut), [Number(n)], Number(n))
  {
    var c := Chain(n, shortcut);
    ChainThenShortcut(n, shortcut);
    hide WalkCourse;
    hide Descent;
    var path := ChainReaches(n, shortcut, n);
    assert EntriesAt(c, path) == Some([EndTopic()]);
    assert TopicAt(c, path, EndTopic());
    if shortcut {
      assert c.root.value[1] == Link(n);
      ExtendPath(c, [], Number(n));
      assert [] + [Number(n)] == [Number(n)];
    }
  }

  lemma ChainThenShortcut(n: nat, shortcut: bool)
    requires n > MAX_MODULE_DEPTH && (shortcut ==> n == MAX_MODULE_DEPTH + 1)
    ensures WalkCourse(Chain(n, shortcut)) == Outcome(true, Progress([], Numbers(0, MAX_MODULE_DEPTH + 1), Descent(0)))
  {
    var c := Chain(n, shortcut);
    hide WalkFrom;
    hide Descent;
    ChainIsCutOff(n, shortcut, 0, START);
    var o := Visit(c, Link(1), 0, START);
    assert {} + Numbers(0, MAX_MODULE_DEPTH + 1) == Numbers(0, MAX_MODULE_DEPTH + 1) && [] + Descent(0) == Descent(0);
    if shortcut {
      assert c.root.value == [Link(1), Link(n)];
      WalkTwo(c, Link(1), Link(n), 0, START);
      assert Number(n) in o.progress.seen;
      WalkOne(c, Link(n), 0, o.progress);
    } else {
      assert c.root.value == [Link(1)];
      WalkOne(c, Link(1), 0, START);
    }
  }

  /** Every answering course of `n` reachable modules is found whole exactly when `n` is at most twenty-five. */
  lemma CoursesAreFoundWholeIff(n: nat)
    ensures (forall c, all :: Answering(c, all) && |all| == n ==> FindsEverything(c)) <==> n <= 25
  {
    if n <= MAX_MODULE_DEPTH {
      forall c, all | Answering(c, all) && |all| == n ensures FindsEverything(c) { SmallCoursesAreFoundWhole(c, all); }
    } else {
      ChainModules(n, false);
      LongChainsLoseTopics(n, false);
    }
  }
}
