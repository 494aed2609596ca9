/** The relationship store: tuples, entity parsing, and the depth-limited permission check evaluated
    the way PostgreSQL evaluates a recursive query, with a working table and UNION ALL. */
module PolicyGraph {
  import opened Common

  /** An entity such as user:123. */
  datatype Entity = Entity(kind: string, id: string)

  /** A row of policy_tuples: `subject` has `relation` to `entity`, recorded by one tenant. */
  datatype Row = Row(tenant: string, entity: Entity, relation: string, subject: Entity)

  /** The caller's form of a tuple, with entities still as strings. */
  datatype Tuple = Tuple(tenant: string, subject: string, relation: string, obj: string)

  datatype Answer = Allowed(granted: bool) | InvalidEntity | StoreError

  const MAX_DEPTH: nat := 10
  const NIL_TENANT: string := "00000000-0000-0000-0000-000000000000"

  // ---------------------------------------------------------------- entity strings

  /** SplitN(entity, ":", 2): everything after the first colon is the id. */
  function ParseEntity(s: string): Option<Entity> {
    if s == [] then None
    else if s[0] == ':' then Some(Entity("", s[1..]))
    else match ParseEntity(s[1..])
      case None => None
      case Some(e) => Some(Entity([s[0]] + e.kind, e.id))
  }

  function RenderEntity(e: Entity): string { e.kind + ":" + e.id }

  /** `s` is type:id, the type being what stands before the first colon. */
  predicate IsText(s: string, e: Entity) { s == e.kind + ":" + e.id && ':' !in e.kind }

  /** Parsing succeeds exactly on strings with a colon, and inverts rendering for colon-free types. */
  lemma {:induction false} ParseExact(s: string, e: Entity)
    ensures ParseEntity(s) == Some(e) <==> s == RenderEntity(e) && ':' !in e.kind
    ensures ParseEntity(s) == None <==> ':' !in s
  {
    if s != [] && s[0] != ':' {
      if |e.kind| > 0 {
        var e' := Entity(e.kind[1..], e.id);
        ParseExact(s[1..], e');
        assert RenderEntity(e)[0] == e.kind[0] && RenderEntity(e)[1..] == RenderEntity(e');
        assert e.kind == [e.kind[0]] + e'.kind;
        if s == RenderEntity(e) && ':' !in e.kind { assert s[1..] == RenderEntity(e'); }
        if ParseEntity(s) == Some(e) { assert s == [s[0]] + s[1..]; }
      } else {
        ParseExact(s[1..], e);
        assert RenderEntity(e)[0] == ':';
      }
    } else if s != [] {
      assert |e.kind| > 0 ==> RenderEntity(e)[0] == e.kind[0];
      if s == RenderEntity(e) && ':' !in e.kind { assert s[1..] == e.id; }
    }
  }

  // ---------------------------------------------------------------- the recursive query

  ghost predicate Edge(rows: seq<Row>, obj: Entity, relation: string, subject: Entity) {
    exists r :: r in rows && r.entity == obj && r.relation == relation && r.subject == subject
  }

  /** Subjects of the rows on `obj` with `relation`, one per row, duplicates included. */
  function Subjects(rows: seq<Row>, obj: Entity, relation: string): seq<Entity> {
    if rows == [] then []
    else (if rows[0].entity == obj && rows[0].relation == relation then [rows[0].subject] else [])
         + Subjects(rows[1..], obj, relation)
  }

  datatype SearchRow = SearchRow(subject: Entity, depth: nat)

  function AtDepth(subjects: seq<Entity>, depth: nat): seq<SearchRow> {
    if subjects == [] then [] else [SearchRow(subjects[0], depth)] + AtDepth(subjects[1..], depth)
  }

  function ExpandFrom(rows: seq<Row>, working: seq<SearchRow>): seq<SearchRow> {
    if working == [] then []
    else (if working[0].depth < MAX_DEPTH
          then AtDepth(Subjects(rows, working[0].subject, "member"), working[0].depth + 1) else [])
         + ExpandFrom(rows, working[1..])
  }

  /** The recursive term: one join of the working table with the member tuples. */
  function Expand(rows: seq<Row>, working: seq<SearchRow>): seq<SearchRow> { ExpandFrom(rows, working) }

  ghost predicate AllAt(working: seq<SearchRow>, depth: nat) { forall w :: w in working ==> w.depth == depth }

  /** Iterates the recursive term until the working table is empty. All rows of a working table have
      the same depth, which is what bounds the iteration even on cyclic tuples. */
  function Search(rows: seq<Row>, working: seq<SearchRow>, ghost depth: nat): seq<SearchRow>
    requires AllAt(working, depth) && depth <= MAX_DEPTH + 1
    decreases MAX_DEPTH + 1 - depth
  {
    if working == [] then []
    else
      ExpandDepth(rows, working, depth);
      var next := Expand(rows, working);
      if next == [] then working else working + Search(rows, next, depth + 1)
  }

  function Base(rows: seq<Row>, obj: Entity, relation: string): (r: seq<SearchRow>)
  {
    AtDepth(Subjects(rows, obj, relation), 1)
  }

  function SearchPath(rows: seq<Row>, obj: Entity, relation: string): seq<SearchRow> {
    AtDepthExact(Subjects(rows, obj, relation), 1);
    Search(rows, Base(rows, obj, relation), 1)
  }

  predicate Granted(rows: seq<Row>, subject: Entity, relation: string, obj: Entity) {
    exists w :: w in SearchPath(rows, obj, relation) && w.subject == subject
  }

  function CheckRows(rows: seq<Row>, subject: string, relation: string, obj: string): Answer {
    match (ParseEntity(subject), ParseEntity(obj))
    case (Some(s), Some(o)) => Allowed(Granted(rows, s, relation, o))
    case _ => InvalidEntity
  }

  // ---------------------------------------------------------------- what one join computes

  lemma {:induction false} SubjectsExact(rows: seq<Row>, obj: Entity, relation: string, n: Entity)
    ensures n in Subjects(rows, obj, relation) <==> Edge(rows, obj, relation, n)
  {
    if rows != [] {
      SubjectsExact(rows[1..], obj, relation, n);
      var head := rows[0];
      assert Subjects(rows, obj, relation)
          == (if head.entity == obj && head.relation == relation then [head.subject] else []) + Subjects(rows[1..], obj, relation);
      assert forall r :: r in rows <==> r == head || r in rows[1..];
    }
  }

  lemma {:induction false} AtDepthExact(subjects: seq<Entity>, depth: nat)
    ensures forall w :: w in AtDepth(subjects, depth) <==> w.subject in subjects && w.depth == depth
  {
    if subjects != [] { AtDepthExact(subjects[1..], depth); }
  }

  lemma {:induction false} ExpandExact(rows: seq<Row>, working: seq<SearchRow>, x: SearchRow)
    ensures x in Expand(rows, working) <==>
            exists w :: w in working && w.depth < 10 && x.depth == w.depth + 1 && Edge(rows, w.subject, "member", x.subject)
  {
    hide Edge, Subjects;
    if working != [] {
      var w0 := working[0];
      ExpandExact(rows, working[1..], x);
      SubjectsExact(rows, w0.subject, "member", x.subject);
      AtDepthExact(Subjects(rows, w0.subject, "member"), w0.depth + 1);
      assert forall w :: w in working <==> w == w0 || w in working[1..];
    }
  }

  lemma ExpandDepth(rows: seq<Row>, working: seq<SearchRow>, depth: nat)
    requires AllAt(working, depth)
    ensures AllAt(Expand(rows, working), depth + 1)
    ensures depth >= 10 ==> Expand(rows, working) == []
  {
    forall x | x in Expand(rows, working) ensures x.depth == depth + 1 && depth < 10 { ExpandExact(rows, working, x); }
    if Expand(rows, working) != [] { assert Expand(rows, working)[0] in Expand(rows, working); }
  }

  // ---------------------------------------------------------------- walks

  /** A walk from `obj`: one `relation` edge, then `member` edges; `path` lists the subjects met. */
  ghost predicate Walk(rows: seq<Row>, obj: Entity, relation: string, path: seq<Entity>) {
    && path != []
    && Edge(rows, obj, relation, path[0])
    && forall i, j :: 0 <= i < j < |path| && j == i + 1 ==> Edge(rows, path[i], "member", path[j])
  }

  ghost predicate EndsAt(rows: seq<Row>, obj: Entity, relation: string, n: Entity, len: nat) {
    exists path :: Walk(rows, obj, relation, path) && |path| == len && path[len - 1] == n
  }

  ghost predicate Reachable(rows: seq<Row>, obj: Entity, relation: string, n: Entity) {
    exists path :: Walk(rows, obj, relation, path) && path[|path| - 1] == n
  }

  lemma WalkPrefix(rows: seq<Row>, obj: Entity, relation: string, path: seq<Entity>, len: nat)
    requires Walk(rows, obj, relation, path) && 1 <= len <= |path|
    ensures Walk(rows, obj, relation, path[..len])
    ensures EndsAt(rows, obj, relation, path[len - 1], len)
  {
    hide Edge;
    assert Walk(rows, obj, relation, path[..len]);
  }

  /** A walk to where `path[..cut]` ends, continued along the rest of `path`. */
  lemma WalkSplice(rows: seq<Row>, obj: Entity, relation: string, path: seq<Entity>, cut: nat, q: seq<Entity>)
    requires Walk(rows, obj, relation, path) && 1 <= cut <= |path|
    requires Walk(rows, obj, relation, q) && q[|q| - 1] == path[cut - 1]
    ensures Walk(rows, obj, relation, q + path[cut..])
    ensures (q + path[cut..])[|q + path[cut..]| - 1] == path[|path| - 1]
  {
    hide Edge;
    var s := q + path[cut..];
    forall i | 0 < i < |s| ensures Edge(rows, s[i - 1], "member", s[i]) {
      if i >= |q| { assert s[i] == path[cut + i - |q|] && s[i - 1] == path[cut + i - |q| - 1]; }
    }
  }

  lemma EndsAtOne(rows: seq<Row>, obj: Entity, relation: string, n: Entity)
    ensures EndsAt(rows, obj, relation, n, 1) <==> Edge(rows, obj, relation, n)
  {
    hide Edge;
    if Edge(rows, obj, relation, n) { assert Walk(rows, obj, relation, [n]); }
  }

  lemma EndsAtStep(rows: seq<Row>, obj: Entity, relation: string, n: Entity, len: nat)
    requires len >= 1
    ensures EndsAt(rows, obj, relation, n, len + 1) <==>
            exists m :: EndsAt(rows, obj, relation, m, len) && Edge(rows, m, "member", n)
  {
    hide Edge;
    if EndsAt(rows, obj, relation, n, len + 1) {
      var path :| Walk(rows, obj, relation, path) && |path| == len + 1 && path[len] == n;
      WalkPrefix(rows, obj, relation, path, len);
      assert Edge(rows, path[len - 1], "member", n);
    }
    forall m | EndsAt(rows, obj, relation, m, len) && Edge(rows, m, "member", n)
      ensures EndsAt(rows, obj, relation, n, len + 1)
    {
      var path :| Walk(rows, obj, relation, path) && |path| == len && path[len - 1] == m;
      var longer := path + [n];
      assert Walk(rows, obj, relation, longer);
      assert |longer| == len + 1 && longer[len] == n;
    }
  }

  // ---------------------------------------------------------------- the query finds exactly the short walks

  /** The working table of iteration `d` holds exactly the ends of walks of length `d`. */
  ghost predicate IsLevel(rows: seq<Row>, obj: Entity, relation: string, working: seq<SearchRow>, d: nat) {
    AllAt(working, d) && forall n :: SearchRow(n, d) in working <==> EndsAt(rows, obj, relation, n, d)
  }

  lemma BaseIsLevel(rows: seq<Row>, obj: Entity, relation: string)
    ensures IsLevel(rows, obj, relation, Base(rows, obj, relation), 1)
  {
    hide Edge, Subjects, EndsAt;
    AtDepthExact(Subjects(rows, obj, relation), 1);
    forall n ensures SearchRow(n, 1) in Base(rows, obj, relation) <==> EndsAt(rows, obj, relation, n, 1) {
      SubjectsExact(rows, obj, relation, n);
      EndsAtOne(rows, obj, relation, n);
    }
  }

  lemma ExpandIsLevel(rows: seq<Row>, obj: Entity, relation: string, working: seq<SearchRow>, d: nat)
    requires IsLevel(rows, obj, relation, working, d) && 1 <= d < 10
    ensures IsLevel(rows, obj, relation, Expand(rows, working), d + 1)
  {
    hide Edge, Expand, EndsAt;
    ExpandDepth(rows, working, d);
    var d' := d + 1;
    forall n ensures SearchRow(n, d') in Expand(rows, working) <==> EndsAt(rows, obj, relation, n, d') {
      ExpandExact(rows, working, SearchRow(n, d + 1));
      EndsAtStep(rows, obj, relation, n, d);
      if EndsAt(rows, obj, relation, n, d + 1) {
        var m :| EndsAt(rows, obj, relation, m, d) && Edge(rows, m, "member", n);
        assert SearchRow(m, d) in working;
      }
      if w :| w in working && w.depth < 10 && d + 1 == w.depth + 1 && Edge(rows, w.subject, "member", n) {
        assert w == SearchRow(w.subject, d);
      }
    }
  }

  lemma EmptyLevelEnds(rows: seq<Row>, obj: Entity, relation: string, d: nat, n: Entity, len: nat)
    requires IsLevel(rows, obj, relation, [], d) && 1 <= d <= len
    ensures !EndsAt(rows, obj, relation, n, len)
  {
    hide Edge;
    if EndsAt(rows, obj, relation, n, len) {
      var path :| Walk(rows, obj, relation, path) && |path| == len && path[len - 1] == n;
      WalkPrefix(rows, obj, relation, path, d);
      assert false;
    }
  }

  lemma SearchStep(rows: seq<Row>, working: seq<SearchRow>, d: nat)
    requires AllAt(working, d) && d <= 10 && working != []
    ensures AllAt(Expand(rows, working), d + 1)
    ensures Search(rows, working, d) == working + if Expand(rows, working) == [] then [] else Search(rows, Expand(rows, working), d + 1)
  {
    hide Expand;
    ExpandDepth(rows, working, d);
  }

  /** The search from the working table of iteration `d` on finds exactly the ends of walks of length `d` to 10. */
  lemma {:induction false} SearchExact(rows: seq<Row>, obj: Entity, relation: string, working: seq<SearchRow>, d: nat, x: SearchRow)
    requires IsLevel(rows, obj, relation, working, d) && 1 <= d <= 10
    ensures AllAt(working, d)
    ensures x in Search(rows, working, d) <==> d <= x.depth <= 10 && EndsAt(rows, obj, relation, x.subject, x.depth)
    decreases 10 - d
  {
    hide Edge, EndsAt, Expand;
    if working == [] {
      if d <= x.depth { EmptyLevelEnds(rows, obj, relation, d, x.subject, x.depth); }
    } else {
      hide Search;
      var next := Expand(rows, working);
      SearchStep(rows, working, d);
      ExpandDepth(rows, working, d);
      assert x in working <==> x.depth == d && EndsAt(rows, obj, relation, x.subject, d) by {
        if x.depth == d { assert x == SearchRow(x.subject, d); }
      }
      if d < 10 {
        ExpandIsLevel(rows, obj, relation, working, d);
        if next == [] {
          if d < x.depth { EmptyLevelEnds(rows, obj, relation, d + 1, x.subject, x.depth); }
        } else {
          SearchExact(rows, obj, relation, next, d + 1, x);
        }
      }
      assert x in Search(rows, working, d) <==> d <= x.depth <= 10 && EndsAt(rows, obj, relation, x.subject, x.depth);
    }
  }

  /** The check answers true exactly when a walk of length 1 to 10 leads from the object to the subject,
      on every tuple set, cyclic ones included. */
  lemma GrantedExact(rows: seq<Row>, subject: Entity, relation: string, obj: Entity)
    ensures Granted(rows, subject, relation, obj) <==>
            exists len :: 1 <= len <= 10 && EndsAt(rows, obj, relation, subject, len)
  {
    hide Edge, EndsAt, Base;
    BaseIsLevel(rows, obj, relation);
    AtDepthExact(Subjects(rows, obj, relation), 1);
    forall x ensures x in SearchPath(rows, obj, relation) <==> 1 <= x.depth <= 10 && EndsAt(rows, obj, relation, x.subject, x.depth) {
      SearchExact(rows, obj, relation, Base(rows, obj, relation), 1, x);
    }
    if len :| 1 <= len <= 10 && EndsAt(rows, obj, relation, subject, len) {
      assert SearchRow(subject, len) in SearchPath(rows, obj, relation);
    }
  }

  /** A walk of at most 10 edges leads from `obj` to `subject`. */
  ghost predicate ShortWalk(rows: seq<Row>, obj: Entity, relation: string, subject: Entity) {
    exists path :: Walk(rows, obj, relation, path) && |path| <= 10 && path[|path| - 1] == subject
  }

  lemma ShortWalkExact(rows: seq<Row>, subject: Entity, relation: string, obj: Entity)
    ensures Granted(rows, subject, relation, obj) <==> ShortWalk(rows, obj, relation, subject)
  {
    hide Edge, Granted;
    GrantedExact(rows, subject, relation, obj);
    if path :| Walk(rows, obj, relation, path) && |path| <= 10 && path[|path| - 1] == subject {
      assert EndsAt(rows, obj, relation, subject, |path|);
    }
  }

  /** The whole check, from the strings it is called with: entities that do not parse are refused, and otherwise it allows
      exactly what a walk of at most 10 edges reaches, a direct tuple or a chain of memberships. */
  lemma CheckExact(rows: seq<Row>, subject: string, relation: string, obj: string)
    ensures ':' !in subject || ':' !in obj ==> CheckRows(rows, subject, relation, obj) == InvalidEntity
    ensures forall s: Entity, o: Entity :: IsText(subject, s) && IsText(obj, o) ==>
              CheckRows(rows, subject, relation, obj) == Allowed(ShortWalk(rows, o, relation, s))
    ensures ':' in subject && ':' in obj ==> exists s: Entity, o: Entity :: IsText(subject, s) && IsText(obj, o)
  {
    hide Granted, ParseEntity, ShortWalk;
    ParseExact(subject, Entity("", ""));
    ParseExact(obj, Entity("", ""));
    forall s: Entity, o: Entity | IsText(subject, s) && IsText(obj, o)
      ensures CheckRows(rows, subject, relation, obj) == Allowed(ShortWalk(rows, o, relation, s))
    {
      ParseExact(subject, s);
      ParseExact(obj, o);
      ShortWalkExact(rows, s, relation, o);
    }
    if ':' in subject && ':' in obj {
      var s, o := ParseEntity(subject).value, ParseEntity(obj).value;
      ParseExact(subject, s);
      ParseExact(obj, o);
      assert IsText(subject, s) && IsText(obj, o);
    }
  }

  // ---------------------------------------------------------------- the depth limit against true reachability

  /** Every subject at the end of a walk of length 11 is also at the end of a shorter one. */
  ghost predicate NothingNewAtDepth11(rows: seq<Row>, obj: Entity, relation: string) {
    forall n :: EndsAt(rows, obj, relation, n, 11) ==> Granted(rows, n, relation, obj)
  }

  lemma ReachableIsEndsAt(rows: seq<Row>, obj: Entity, relation: string, n: Entity)
    ensures Reachable(rows, obj, relation, n) <==> exists len: nat :: EndsAt(rows, obj, relation, n, len)
  {
    hide Edge;
    if Reachable(rows, obj, relation, n) {
      var path :| Walk(rows, obj, relation, path) && path[|path| - 1] == n;
      assert EndsAt(rows, obj, relation, n, |path|);
    }
  }

  lemma {:induction false} ShortenUnder(rows: seq<Row>, obj: Entity, relation: string, path: seq<Entity>)
    requires NothingNewAtDepth11(rows, obj, relation) && Walk(rows, obj, relation, path)
    ensures Granted(rows, path[|path| - 1], relation, obj)
    decreases |path|
  {
    hide Edge, Granted;
    GrantedExact(rows, path[|path| - 1], relation, obj);
    if |path| <= 10 {
      assert EndsAt(rows, obj, relation, path[|path| - 1], |path|);
    } else {
      WalkPrefix(rows, obj, relation, path, 11);
      var m := path[10];
      GrantedExact(rows, m, relation, obj);
      var len :| 1 <= len <= 10 && EndsAt(rows, obj, relation, m, len);
      var q :| Walk(rows, obj, relation, q) && |q| == len && q[len - 1] == m;
      WalkSplice(rows, obj, relation, path, 11, q);
      ShortenUnder(rows, obj, relation, q + path[11..]);
    }
  }

  /** The check decides unbounded reachability for every subject if and only if depth 11 adds nothing. */
  lemma {:induction false} DepthLimitExact(rows: seq<Row>, obj: Entity, relation: string)
    ensures (forall s :: Granted(rows, s, relation, obj) <==> Reachable(rows, obj, relation, s))
            <==> NothingNewAtDepth11(rows, obj, relation)
  {
    hide Edge, Granted;
    forall s ensures Granted(rows, s, relation, obj) ==> Reachable(rows, obj, relation, s) {
      GrantedExact(rows, s, relation, obj);
      ReachableIsEndsAt(rows, obj, relation, s);
    }
    if NothingNewAtDepth11(rows, obj, relation) {
      forall s | Reachable(rows, obj, relation, s) ensures Granted(rows, s, relation, obj) {
        var path :| Walk(rows, obj, relation, path) && path[|path| - 1] == s;
        ShortenUnder(rows, obj, relation, path);
      }
    } else {
      var n :| EndsAt(rows, obj, relation, n, 11) && !Granted(rows, n, relation, obj);
      ReachableIsEndsAt(rows, obj, relation, n);
    }
  }

  ghost function ReachableSet(rows: seq<Row>, obj: Entity, relation: string): set<Entity> {
    set r | r in rows && Reachable(rows, obj, relation, r.subject) :: r.subject
  }

  lemma WalkStaysReachable(rows: seq<Row>, obj: Entity, relation: string, path: seq<Entity>, i: nat)
    requires Walk(rows, obj, relation, path) && i < |path|
    ensures path[i] in ReachableSet(rows, obj, relation)
  {
    WalkPrefix(rows, obj, relation, path, i + 1);
    var p := path[..i + 1];
    assert Walk(rows, obj, relation, p) && p[|p| - 1] == path[i];
    if i > 0 { assert Edge(rows, path[i - 1], "member", path[i]); }
    var r :| r in rows && r.subject == path[i];
  }

  lemma {:induction false} DistinctFits(path: seq<Entity>, s: set<Entity>)
    requires NoDup(path) && forall i :: 0 <= i < |path| ==> path[i] in s
    ensures |path| <= |s|
  {
    if path != [] {
      var last := |path| - 1;
      DistinctFits(path[..last], s - {path[last]});
    }
  }

  /** Pigeonhole: when at most 10 subjects are reachable, the depth-limited check is reachability. */
  lemma {:induction false} FewReachableMeansExact(rows: seq<Row>, obj: Entity, relation: string, subject: Entity)
    requires |ReachableSet(rows, obj, relation)| <= 10
    ensures Granted(rows, subject, relation, obj) <==> Reachable(rows, obj, relation, subject)
  {
    hide Edge, Granted, Reachable, ReachableSet;
    forall n | EndsAt(rows, obj, relation, n, 11) ensures Granted(rows, n, relation, obj) {
      var path :| Walk(rows, obj, relation, path) && |path| == 11 && path[10] == n;
      forall i | 0 <= i < |path| ensures path[i] in ReachableSet(rows, obj, relation) {
        WalkStaysReachable(rows, obj, relation, path, i);
      }
      if NoDup(path) {
        DistinctFits(path, ReachableSet(rows, obj, relation));
        assert false;
      }
      var i, j :| 0 <= i < j < |path| && path[i] == path[j];
      WalkPrefix(rows, obj, relation, path, i + 1);
      WalkSplice(rows, obj, relation, path, j + 1, path[..i + 1]);
      var cut := path[..i + 1] + path[j + 1..];
      assert EndsAt(rows, obj, relation, n, |cut|);
      GrantedExact(rows, n, relation, obj);
    }
    DepthLimitExact(rows, obj, relation);
  }

  /** Group i of a chain: a name of i letters. */
  function Link(i: nat): Entity { Entity("group", seq(i, _ => 'g')) }

  /** The tuples of a chain of k groups: viewer of the first, then each a member of the one before. */
  function Chain(k: nat): seq<Row> {
    if k == 0 then []
    else Chain(k - 1) + [Row(NIL_TENANT, Link(k - 1), if k == 1 then "viewer" else "member", Link(k))]
  }

  lemma {:induction false} ChainEdges(k: nat, a: Entity, relation: string, b: Entity)
    ensures Edge(Chain(k), a, relation, b) <==>
            exists i :: 0 <= i < k && a == Link(i) && b == Link(i + 1) && relation == (if i == 0 then "viewer" else "member")
  {
    if k > 0 {
      ChainEdges(k - 1, a, relation, b);
      var last := Row(NIL_TENANT, Link(k - 1), if k == 1 then "viewer" else "member", Link(k));
      assert forall r :: r in Chain(k) <==> r in Chain(k - 1) || r == last;
      if Edge(Chain(k - 1), a, relation, b) {
        var r :| r in Chain(k - 1) && r.entity == a && r.relation == relation && r.subject == b;
        assert r in Chain(k);
      }
      if a == last.entity && b == last.subject && relation == last.relation {
        assert last in Chain(k);
      }
    }
  }

  lemma LinkInjective(i: nat, j: nat)
    requires Link(i) == Link(j)
    ensures i == j
  {
    assert |Link(i).id| == i && |Link(j).id| == j;
  }

  lemma {:induction false} ChainWalk(k: nat, path: seq<Entity>, i: nat)
    requires Walk(Chain(k), Link(0), "viewer", path) && i < |path|
    ensures i < k && path[i] == Link(i + 1)
  {
    hide Edge, Chain, Link;
    if i == 0 {
      ChainEdges(k, Link(0), "viewer", path[0]);
    } else {
      ChainWalk(k, path, i - 1);
      ChainEdges(k, path[i - 1], "member", path[i]);
      var m :| 0 <= m < k && path[i - 1] == Link(m) && path[i] == Link(m + 1);
      LinkInjective(m, i);
    }
  }

  /** The bound of 10 is tight: along a chain the last group is always reachable, and the check finds it
      exactly up to length 10. */
  lemma {:induction false} ChainExact(k: nat)
    requires k >= 1
    ensures Reachable(Chain(k), Link(0), "viewer", Link(k))
    ensures Granted(Chain(k), Link(k), "viewer", Link(0)) <==> k <= 10
  {
    hide Edge, Chain, Link, Granted;
    ChainReaches(k);
    GrantedExact(Chain(k), Link(k), "viewer", Link(0));
    if Granted(Chain(k), Link(k), "viewer", Link(0)) {
      var len :| 1 <= len <= 10 && EndsAt(Chain(k), Link(0), "viewer", Link(k), len);
      var q :| Walk(Chain(k), Link(0), "viewer", q) && |q| == len && q[len - 1] == Link(k);
      ChainWalk(k, q, len - 1);
      LinkInjective(len, k);
    }
  }

  lemma {:induction false} ChainReaches(k: nat)
    requires k >= 1
    ensures Reachable(Chain(k), Link(0), "viewer", Link(k)) && EndsAt(Chain(k), Link(0), "viewer", Link(k), k)
  {
    hide Edge, Chain, Link;
    var path := seq(k, i requires 0 <= i < k => Link(i + 1));
    ChainEdges(k, Link(0), "viewer", path[0]);
    forall i | 0 < i < |path| ensures Edge(Chain(k), path[i - 1], "member", path[i]) {
      ChainEdges(k, path[i - 1], "member", path[i]);
    }
    assert Walk(Chain(k), Link(0), "viewer", path) && path[|path| - 1] == Link(k);
  }

  // ---------------------------------------------------------------- writes and deletes

  function TenantOf(t: string): string { if t == "" then NIL_TENANT else t }

  /** The stored row of a tuple, when both its entities parse. */
  function RowOf(t: Tuple): Option<Row> {
    match (ParseEntity(t.subject), ParseEntity(t.obj))
    case (Some(s), Some(o)) => Some(Row(TenantOf(t.tenant), o, t.relation, s))
    case _ => None
  }

  /** The row a tuple names, written out: its own tenant, or the nil tenant when it has none. */
  ghost predicate Names(t: Tuple, r: Row) {
    && IsText(t.subject, r.subject) && IsText(t.obj, r.entity) && r.relation == t.relation
    && r.tenant == if t.tenant == "" then "00000000-0000-0000-0000-000000000000" else t.tenant
  }

  lemma RowNamed(t: Tuple, r: Row)
    ensures RowOf(t) == Some(r) <==> Names(t, r)
    ensures RowOf(t).None? <==> ':' !in t.subject || ':' !in t.obj
  {
    hide ParseEntity;
    ParseExact(t.subject, r.subject);
    ParseExact(t.obj, r.entity);
  }

  lemma Named(t: Tuple)
    ensures RowOf(t).Some? ==> Names(t, RowOf(t).value)
    ensures RowOf(t).Some? <==> ':' in t.subject && ':' in t.obj
    ensures forall r :: Names(t, r) ==> RowOf(t) == Some(r)
  {
    hide Names, RowOf;
    var any := Row("", Entity("", ""), "", Entity("", ""));
    RowNamed(t, if RowOf(t).Some? then RowOf(t).value else any);
    forall r | Names(t, r) ensures RowOf(t) == Some(r) { RowNamed(t, r); }
  }

  /** INSERT ... ON CONFLICT DO NOTHING. */
  function Insert(rows: seq<Row>, r: Row): seq<Row> { if r in rows then rows else rows + [r] }

  function Delete(rows: seq<Row>, r: Row): seq<Row> {
    if rows == [] then [] else (if rows[0] == r then [] else [rows[0]]) + Delete(rows[1..], r)
  }

  lemma {:induction false} DeleteExact(rows: seq<Row>, r: Row)
    ensures forall x :: x in Delete(rows, r) <==> x in rows && x != r
    ensures NoDup(rows) ==> NoDup(Delete(rows, r))
  {
    if rows != [] {
      DeleteExact(rows[1..], r);
      assert forall x :: x in rows <==> x == rows[0] || x in rows[1..];
      var d := Delete(rows[1..], r);
      assert Delete(rows, r) == (if rows[0] == r then [] else [rows[0]]) + d;
      if NoDup(rows) && rows[0] != r {
        assert rows[0] !in rows[1..];
        assert NoDup([rows[0]] + d);
      }
    }
  }

  ghost predicate EdgesWithin(rows: seq<Row>, rows': seq<Row>) {
    forall r :: r in rows ==> Edge(rows', r.entity, r.relation, r.subject)
  }

  lemma WalkKept(rows: seq<Row>, rows': seq<Row>, obj: Entity, relation: string, path: seq<Entity>)
    requires EdgesWithin(rows, rows') && Walk(rows, obj, relation, path)
    ensures Walk(rows', obj, relation, path)
  {
    forall a, rel, b | Edge(rows, a, rel, b) ensures Edge(rows', a, rel, b) { }
  }

  /** Only the edges matter, and more edges never turn a granted check into a denied one. */
  lemma {:induction false} GrantedMonotone(rows: seq<Row>, rows': seq<Row>, subject: Entity, relation: string, obj: Entity)
    requires EdgesWithin(rows, rows') && Granted(rows, subject, relation, obj)
    ensures Granted(rows', subject, relation, obj)
  {
    hide Edge, Granted;
    GrantedExact(rows, subject, relation, obj);
    var len :| 1 <= len <= 10 && EndsAt(rows, obj, relation, subject, len);
    var path :| Walk(rows, obj, relation, path) && |path| == len && path[len - 1] == subject;
    WalkKept(rows, rows', obj, relation, path);
    assert EndsAt(rows', obj, relation, subject, len);
    GrantedExact(rows', subject, relation, obj);
  }

  /** A write never revokes, and grants at least its own tuple. */
  lemma WriteOnlyGrants(rows: seq<Row>, r: Row, subject: Entity, relation: string, obj: Entity)
    ensures Granted(rows, subject, relation, obj) ==> Granted(Insert(rows, r), subject, relation, obj)
    ensures Granted(Insert(rows, r), r.subject, r.relation, r.entity)
  {
    hide Granted;
    assert EdgesWithin(rows, Insert(rows, r));
    if Granted(rows, subject, relation, obj) { GrantedMonotone(rows, Insert(rows, r), subject, relation, obj); }
    assert r in Insert(rows, r);
    assert Edge(Insert(rows, r), r.entity, r.relation, r.subject);
    EndsAtOne(Insert(rows, r), r.entity, r.relation, r.subject);
    GrantedExact(Insert(rows, r), r.subject, r.relation, r.entity);
  }

  /** A delete never grants; and while another tenant still records the same edge it revokes nothing either. */
  lemma {:induction false} DeleteOnlyRevokes(rows: seq<Row>, r: Row, subject: Entity, relation: string, obj: Entity)
    ensures Granted(Delete(rows, r), subject, relation, obj) ==> Granted(rows, subject, relation, obj)
    ensures (exists t :: t != r.tenant && r.(tenant := t) in rows) ==>
              (Granted(Delete(rows, r), subject, relation, obj) <==> Granted(rows, subject, relation, obj))
  {
    hide Granted;
    DeleteExact(rows, r);
    assert EdgesWithin(Delete(rows, r), rows);
    if Granted(Delete(rows, r), subject, relation, obj) { GrantedMonotone(Delete(rows, r), rows, subject, relation, obj); }
    if t :| t != r.tenant && r.(tenant := t) in rows {
      var copy := r.(tenant := t);
      forall x | x in rows ensures Edge(Delete(rows, r), x.entity, x.relation, x.subject) {
        if x == r { assert copy in Delete(rows, r); } else { assert x in Delete(rows, r); }
      }
      if Granted(rows, subject, relation, obj) { GrantedMonotone(rows, Delete(rows, r), subject, relation, obj); }
    }
  }

  /** A tuple written by two tenants and deleted by one of them is still granted. */
  lemma OtherTenantKeeps(rows: seq<Row>, t: Tuple, a: string, b: string, ra: Row, rb: Row)
    requires a != "" && b != "" && a != b && Names(t.(tenant := a), ra) && Names(t.(tenant := b), rb)
    ensures RowOf(t.(tenant := a)) == Some(ra) && RowOf(t.(tenant := b)) == Some(rb)
    ensures ra.subject == rb.subject && ra.entity == rb.entity
    ensures Granted(Delete(Insert(Insert(rows, ra), rb), ra), ra.subject, t.relation, ra.entity)
  {
    hide Granted, Insert, Delete, ParseEntity;
    RowNamed(t.(tenant := a), ra);
    RowNamed(t.(tenant := b), rb);
    var both := Insert(Insert(rows, ra), rb);
    WriteOnlyGrants(Insert(rows, ra), rb, rb.subject, t.relation, rb.entity);
    Inserted(Insert(rows, ra), rb);
    assert rb == ra.(tenant := b) && rb.tenant != ra.tenant;
    DeleteOnlyRevokes(both, ra, ra.subject, t.relation, ra.entity);
  }

  lemma Inserted(rows: seq<Row>, r: Row)
    ensures r in Insert(rows, r)
  {
  }

  class PolicyRepository {
    var rows: seq<Row>

    ghost predicate Valid() reads this { NoDup(rows) }

    constructor ()
      ensures Valid() && rows == []
    {
      rows := [];
    }

    method Check(subject: string, relation: string, obj: string, queryOk: bool) returns (a: Answer)
      ensures a == if CheckRows(rows, subject, relation, obj).InvalidEntity? || queryOk
                   then CheckRows(rows, subject, relation, obj) else StoreError
      ensures ':' !in subject || ':' !in obj ==> a == InvalidEntity
      ensures forall s: Entity, o: Entity :: IsText(subject, s) && IsText(obj, o) ==>
                a == if queryOk then Allowed(ShortWalk(rows, o, relation, s)) else StoreError
    {
      CheckExact(rows, subject, relation, obj);
      var sub := ParseEntity(subject);
      if sub.None? { return InvalidEntity; }
      var o := ParseEntity(obj);
      if o.None? { return InvalidEntity; }
      if !queryOk { return StoreError; }
      return Allowed(Granted(rows, sub.value, relation, o.value));
    }

    /** Returns whether the call succeeded. */
    method WriteTuple(t: Tuple, execOk: bool) returns (ok: bool)
      requires Valid()
      modifies this
      ensures Valid()
      ensures ok == (RowOf(t).Some? && execOk)
      ensures rows == if ok then Insert(old(rows), RowOf(t).value) else old(rows)
      // the named row is there, every other row is as it was
      ensures ok <==> ':' in t.subject && ':' in t.obj && execOk
      ensures ok ==> forall r :: r in rows <==> r in old(rows) || Names(t, r)
      ensures !ok ==> rows == old(rows)
    {
      hide Names;
      Named(t);
      var r := RowOf(t);
      ok := r.Some? && execOk;
      if ok { rows := Insert(rows, r.value); }
    }

    method DeleteTuple(t: Tuple, execOk: bool) returns (ok: bool)
      requires Valid()
      modifies this
      ensures Valid()
      ensures ok == (RowOf(t).Some? && execOk)
      ensures rows == if ok then Delete(old(rows), RowOf(t).value) else old(rows)
      // the named row is gone, every other row is as it was
      ensures ok <==> ':' in t.subject && ':' in t.obj && execOk
      ensures ok ==> forall r :: r in rows <==> r in old(rows) && !Names(t, r)
      ensures !ok ==> rows == old(rows)
    {
      hide Names;
      Named(t);
      var r := RowOf(t);
      ok := r.Some? && execOk;
      if ok {
        DeleteExact(rows, r.value);
        rows := Delete(rows, r.value);
      }
    }
  }
}
