/** The company synchronisation job: it pages by OFFSET over the non-suspended companies
    while its own loop suspends some of them, so the list shrinks under the cursor. */
module CompanySync {
  import opened Common

  datatype Status = Active | Pending | Suspended

  /** A row of the companies table; `profile` stands for the columns the job only copies back. */
  datatype Company = Company(id: Uuid, tenantId: Uuid, cnpj: string, profile: string, status: Status)

  /** What the lookup service answers for one company. */
  datatype Lookup = LookupFailed | NotFound | Found(situacao: string)

  /** Everything the job cannot decide itself. The n-th visit of a run asks `lookup(n)` and its
      table update succeeds when `updateOk(n)`; the k-th page is readable when `listOk(k)`. */
  datatype Env = Env(hasLookup: bool, lookup: nat -> Lookup, updateOk: nat -> bool, listOk: nat -> bool)

  const LIMIT: nat := 50

  // ---------------------------------------------------------------- the table

  predicate DistinctIds(t: seq<Company>) {
    forall i, j :: 0 <= i < j < |t| ==> t[i].id != t[j].id
  }

  function IdsFrom(t: seq<Company>): (r: seq<Uuid>)
    ensures |r| == |t|
    ensures forall i :: 0 <= i < |t| ==> r[i] == t[i].id
  {
    if t == [] then [] else [t[0].id] + IdsFrom(t[1..])
  }

  function Ids(t: seq<Company>): (r: seq<Uuid>)
    ensures |r| == |t|
    ensures forall i :: 0 <= i < |t| ==> r[i] == t[i].id
  {
    IdsFrom(t)
  }

  /** The rows with status != 'suspended', in created_at order. */
  function ActiveRows(t: seq<Company>): (r: seq<Company>)
    ensures |r| <= |t|
  {
    if t == [] then []
    else if t[0].status.Suspended? then ActiveRows(t[1..])
    else [t[0]] + ActiveRows(t[1..])
  }

  function ActiveIdsFrom(t: seq<Company>): seq<Uuid> {
    if t == [] then []
    else if t[0].status.Suspended? then ActiveIdsFrom(t[1..])
    else [t[0].id] + ActiveIdsFrom(t[1..])
  }

  /** The list the job pages over, by id. */
  function ActiveIds(t: seq<Company>): seq<Uuid> { ActiveIdsFrom(t) }

  lemma {:induction false} ActiveRowsFrom(t: seq<Company>)
    ensures forall c :: c in ActiveRows(t) ==> c in t && !c.status.Suspended?
  {
    if t != [] { ActiveRowsFrom(t[1..]); }
  }

  lemma {:induction false} ActiveIdsAreIds(t: seq<Company>)
    ensures ActiveIds(t) == Ids(ActiveRows(t))
  {
    if t != [] {
      ActiveIdsAreIds(t[1..]);
      if !t[0].status.Suspended? { assert ActiveRows(t)[1..] == ActiveRows(t[1..]); }
    }
  }

  /** `at[k]` is where in the table entry `k` of the paged list stands: the list holds exactly the rows that are not
      suspended, in table order. */
  ghost predicate ListedAt(t: seq<Company>, at: seq<nat>) {
    && |at| == |ActiveIds(t)|
    && (forall k :: 0 <= k < |at| ==> at[k] < |t| && ActiveIds(t)[k] == t[at[k]].id)
    && (forall k, l :: 0 <= k < l < |at| ==> at[k] < at[l])
    && (forall i :: 0 <= i < |t| ==> (i in at <==> !t[i].status.Suspended?))
  }

  lemma {:induction false} ListedExactly(t: seq<Company>) returns (at: seq<nat>)
    ensures ListedAt(t, at)
  {
    if t == [] {
      at := [];
    } else {
      var last := |t| - 1;
      var rest := ListedExactly(t[..last]);
      ActiveIdsSnoc(t);
      at := rest + if t[last].status.Suspended? then [] else [last];
      ListedSnoc(t, rest, at);
    }
  }

  lemma ListedSnoc(t: seq<Company>, rest: seq<nat>, at: seq<nat>)
    requires t != [] && ListedAt(t[..|t| - 1], rest)
    requires ActiveIds(t) == ActiveIds(t[..|t| - 1]) + if t[|t| - 1].status.Suspended? then [] else [t[|t| - 1].id]
    requires at == rest + if t[|t| - 1].status.Suspended? then [] else [|t| - 1]
    ensures ListedAt(t, at)
  {
    hide ActiveIds;
    var last := |t| - 1;
    forall k | 0 <= k < |rest| ensures at[k] < last && ActiveIds(t)[k] == t[at[k]].id { assert t[..last][rest[k]] == t[rest[k]]; }
    forall i | 0 <= i < |t| ensures i in at <==> !t[i].status.Suspended? {
      if i < last { assert t[..last][i] == t[i]; }
    }
  }

  lemma {:induction false} ActiveIdsSnoc(t: seq<Company>)
    requires t != []
    ensures ActiveIds(t) == ActiveIds(t[..|t| - 1]) + if t[|t| - 1].status.Suspended? then [] else [t[|t| - 1].id]
  {
    if |t| > 1 {
      var last := |t| - 1;
      ActiveIdsSnoc(t[1..]);
      assert t[1..][..last - 1] == t[..last][1..] && t[1..][last - 1] == t[last];
    } else {
      assert t[1..] == [] && t[..0] == [];
    }
  }

  /** LIMIT `limit` OFFSET `offset`. */
  function Window<T>(s: seq<T>, limit: nat, offset: nat): seq<T> {
    if offset >= |s| then [] else s[offset..Min(offset + limit, |s|)]
  }

  /** What ListAllActive returns. */
  function PageOf(t: seq<Company>, limit: nat, offset: nat): (page: seq<Company>)
    ensures |page| <= limit
    ensures page != [] ==> offset + |page| <= |t|
  {
    Window(ActiveRows(t), limit, offset)
  }

  lemma PageFacts(t: seq<Company>, limit: nat, offset: nat)
    ensures var page := PageOf(t, limit, offset);
            && page == [] + Window(ActiveRows(t[0..]), limit, offset)
            && Ids(page) == Window(ActiveIds(t), limit, offset)
            && |page| == Max(0, Min(limit, |ActiveIds(t)| - offset))
            && forall c :: c in page ==> c in t && !c.status.Suspended?
  {
    assert t[0..] == t;
    WindowIds(t, limit, offset);
    ActiveRowsFrom(t);
  }

  /** What one more row does to the rest of a page with room for `left` rows after `skip` more. */
  lemma ScanStep(t: seq<Company>, i: nat, left: nat, skip: nat)
    requires i < |t| && left > 0
    ensures Window(ActiveRows(t[i..]), left, skip) ==
            if t[i].status.Suspended? then Window(ActiveRows(t[i + 1..]), left, skip)
            else if skip > 0 then Window(ActiveRows(t[i + 1..]), left, skip - 1)
            else [t[i]] + Window(ActiveRows(t[i + 1..]), left - 1, 0)
  {
    assert t[i..][1..] == t[i + 1..];
  }

  lemma ScanEnd(t: seq<Company>, i: nat, left: nat, skip: nat)
    requires i <= |t| && (i == |t| || left == 0)
    ensures Window(ActiveRows(t[i..]), left, skip) == []
  {
  }

  /** UPDATE ... WHERE id = c.id. */
  function ReplaceRow(t: seq<Company>, c: Company): (r: seq<Company>)
    ensures |r| == |t|
    ensures forall i :: 0 <= i < |t| ==> r[i] == if t[i].id == c.id then c else t[i]
  {
    if t == [] then [] else [if t[0].id == c.id then c else t[0]] + ReplaceRow(t[1..], c)
  }

  class CompanyRepository {
    var rows: seq<Company>

    ghost predicate Valid() reads this { DistinctIds(rows) }

    constructor (rows: seq<Company>)
      requires DistinctIds(rows)
      ensures Valid() && this.rows == rows
    {
      this.rows := rows;
    }

    method ListAllActive(limit: nat, offset: nat) returns (page: seq<Company>)
      ensures page == PageOf(rows, limit, offset)
      ensures Ids(page) == Window(ActiveIds(rows), limit, offset)
      ensures |page| == Max(0, Min(limit, |ActiveIds(rows)| - offset))
      ensures forall c :: c in page ==> c in rows && !c.status.Suspended?
    {
      hide *;
      page := [];
      var i, skip := 0, offset;
      PageFacts(rows, limit, offset);
      while i < |rows| && |page| < limit
        invariant 0 <= i <= |rows| && |page| <= limit
        invariant PageOf(rows, limit, offset) == page + Window(ActiveRows(rows[i..]), limit - |page|, skip)
      {
        ScanStep(rows, i, limit - |page|, skip);
        if !rows[i].status.Suspended? {
          if skip > 0 { skip := skip - 1; } else { page := page + [rows[i]]; }
        }
        i := i + 1;
      }
      ScanEnd(rows, i, limit - |page|, skip);
    }

    /** Fails when the statement fails or when no row has the id. */
    method Update(c: Company, statementOk: bool) returns (ok: bool)
      modifies this
      ensures ok == (statementOk && c.id in Ids(old(rows)))
      ensures rows == if ok then ReplaceRow(old(rows), c) else old(rows)
    {
      ok := statementOk && c.id in Ids(rows);
      if ok { rows := ReplaceRow(rows, c); }
    }
  }

  // ---------------------------------------------------------------- one company

  /** The registry's situation mapped to a domain status; None keeps the current one. */
  function MapSituacao(s: string): Option<Status> {
    if s == "ATIVA" then Some(Active)
    else if s == "BAIXADA" || s == "INAPTA" || s == "NULA" then Some(Suspended)
    else if s == "SUSPENSA" then Some(Suspended)
    else None
  }

  /** The status the n-th visit asks for, if any. */
  function Wanted(env: Env, n: nat): Option<Status> {
    if env.hasLookup && env.lookup(n).Found? then MapSituacao(env.lookup(n).situacao) else None
  }

  /** The n-th visit of a run suspends the company it visits. */
  predicate Suspends(env: Env, n: nat) {
    Wanted(env, n) == Some(Suspended) && env.updateOk(n)
  }

  function SyncOne(t: seq<Company>, c: Company, env: Env, n: nat): (r: seq<Company>)
    ensures |r| == |t|
  {
    match Wanted(env, n)
    case None => t
    case Some(s) => if c.status != s && env.updateOk(n) then ReplaceRow(t, c.(status := s)) else t
  }

  function SyncPage(t: seq<Company>, page: seq<Company>, env: Env, n: nat): (r: seq<Company>)
    ensures |r| == |t|
    decreases |page|
  {
    if page == [] then t else SyncPage(SyncOne(t, page[0], env, n), page[1..], env, n + 1)
  }

  /** The table after the visits of one page, the first of them being visit `n`. */
  function AfterPage(t: seq<Company>, page: seq<Company>, env: Env, n: nat): (r: seq<Company>)
    ensures |r| == |t|
  {
    SyncPage(t, page, env, n)
  }

  // ---------------------------------------------------------------- the whole job

  datatype Outcome = Outcome(rows: seq<Company>, pages: seq<seq<Company>>, ok: bool)

  /** The paging loop from page `k`, cursor `offset` and visit number `n` on. */
  function Run(t: seq<Company>, limit: nat, offset: nat, env: Env, k: nat, n: nat): Outcome
    requires limit > 0
    decreases |t| - offset
  {
    var page := PageOf(t, limit, offset);
    if !env.listOk(k) then Outcome(t, [], false)
    else if page == [] then Outcome(t, [], true)
    else
      var t' := AfterPage(t, page, env, n);
      if |page| < limit then Outcome(t', [page], true)
      else
        var rest := Run(t', limit, offset + limit, env, k + 1, n + limit);
        Outcome(rest.rows, [page] + rest.pages, rest.ok)
  }

  function Flatten<T>(s: seq<seq<T>>): seq<T> {
    if s == [] then [] else s[0] + Flatten(s[1..])
  }

  /** The ids visited by a run, in visiting order. */
  function Visited(t: seq<Company>, limit: nat, offset: nat, env: Env, k: nat, n: nat): seq<Uuid>
    requires limit > 0
  {
    Ids(Flatten(Run(t, limit, offset, env, k, n).pages))
  }

  // ---------------------------------------------------------------- the table under the loop

  lemma SyncOneKeepsIds(t: seq<Company>, c: Company, env: Env, n: nat)
    ensures Ids(SyncOne(t, c, env, n)) == Ids(t)
  {
  }

  lemma {:induction false} SyncPageKeepsIds(t: seq<Company>, page: seq<Company>, env: Env, n: nat)
    ensures Ids(AfterPage(t, page, env, n)) == Ids(t)
    decreases |page|
  {
    if page != [] {
      SyncOneKeepsIds(t, page[0], env, n);
      SyncPageKeepsIds(SyncOne(t, page[0], env, n), page[1..], env, n + 1);
    }
  }

  lemma DistinctByIds(t: seq<Company>, u: seq<Company>)
    requires Ids(t) == Ids(u) && DistinctIds(t)
    ensures DistinctIds(u)
  {
    forall i, j | 0 <= i < j < |u| ensures u[i].id != u[j].id {
      assert Ids(u)[i] == t[i].id && Ids(u)[j] == t[j].id;
    }
  }

  /** Replacing a non-suspended row by a non-suspended one leaves the paged list as it is. */
  lemma {:induction false} ReplaceActiveKeeps(t: seq<Company>, c: Company)
    requires !c.status.Suspended? && forall r :: r in t && r.id == c.id ==> !r.status.Suspended?
    ensures ActiveIds(ReplaceRow(t, c)) == ActiveIds(t)
  {
    if t != [] {
      ReplaceActiveKeeps(t[1..], c);
      assert ReplaceRow(t, c)[1..] == ReplaceRow(t[1..], c);
    }
  }

  lemma {:induction false} ReplaceAbsent(t: seq<Company>, c: Company)
    requires forall r :: r in t ==> r.id != c.id
    ensures ReplaceRow(t, c) == t && c.id !in ActiveIds(t)
  {
    if t != [] {
      ReplaceAbsent(t[1..], c);
    }
  }

  lemma MissingRow(t: seq<Company>, c: Company)
    requires c.id !in Ids(t)
    ensures ReplaceRow(t, c) == t
  {
    forall i | 0 <= i < |t| ensures t[i].id != c.id { assert Ids(t)[i] == t[i].id; }
    ReplaceAbsent(t, c);
  }

  /** Suspending one listed company takes exactly its entry out of the paged list. */
  lemma {:induction false} ReplaceSuspendedRemoves(t: seq<Company>, c: Company, pre: seq<Uuid>, post: seq<Uuid>)
    requires DistinctIds(t) && c.status.Suspended?
    requires ActiveIds(t) == pre + [c.id] + post
    ensures ActiveIds(ReplaceRow(t, c)) == pre + post
  {
    var head, tail := t[0], t[1..];
    assert ReplaceRow(t, c)[1..] == ReplaceRow(tail, c);
    if head.status.Suspended? {
      ReplaceSuspendedRemoves(tail, c, pre, post);
    } else if head.id == c.id {
      ReplaceAbsent(tail, c);
      HeadOf(head.id, ActiveIds(tail), pre, c.id, post);
    } else {
      HeadOf(head.id, ActiveIds(tail), pre, c.id, post);
      ReplaceSuspendedRemoves(tail, c, pre[1..], post);
      assert [head.id] + (pre[1..] + post) == pre + post;
    }
  }

  lemma HeadOf<T>(x: T, rest: seq<T>, pre: seq<T>, y: T, post: seq<T>)
    requires [x] + rest == pre + [y] + post
    ensures if pre == [] then x == y && rest == post
            else pre[0] == x && rest == pre[1..] + [y] + post && y in rest
  {
    var whole := [x] + rest;
    assert whole[0] == x && whole[1..] == rest;
    if pre == [] {
      assert (pre + [y] + post)[0] == y && (pre + [y] + post)[1..] == post;
    } else {
      assert (pre + [y] + post)[0] == pre[0] && (pre + [y] + post)[1..] == pre[1..] + [y] + post;
      assert rest[|pre| - 1] == y;
    }
  }

  lemma {:induction false} ActiveIdsOrigin(t: seq<Company>)
    ensures forall id :: id in ActiveIds(t) ==> exists r :: r in t && r.id == id && !r.status.Suspended?
  {
    if t != [] {
      ActiveIdsOrigin(t[1..]);
      assert forall id :: id in ActiveIds(t) ==> id in ActiveIds(t[1..]) || (id == t[0].id && !t[0].status.Suspended?);
      assert t[0] in t;
    }
  }

  lemma {:induction false} ActiveIdsDistinct(t: seq<Company>)
    requires DistinctIds(t)
    ensures NoDup(ActiveIds(t))
  {
    if t != [] {
      ActiveIdsDistinct(t[1..]);
      ActiveIdsOrigin(t[1..]);
      assert t[0].id !in ActiveIds(t[1..]);
    }
  }

  // ---------------------------------------------------------------- what a page does to the list

  /** Suspensions among the `len` visits that start with visit `n`. */
  function SuspensionsFrom(env: Env, n: nat, len: nat): (s: nat)
    ensures s <= len
    decreases len
  {
    if len == 0 then 0 else (if Suspends(env, n) then 1 else 0) + SuspensionsFrom(env, n + 1, len - 1)
  }

  function Suspensions(env: Env, n: nat, len: nat): (s: nat)
    ensures s <= len
  {
    SuspensionsFrom(env, n, len)
  }

  /** The ids of a page that are still listed after its visits. */
  function Kept(ids: seq<Uuid>, env: Env, n: nat): (r: seq<Uuid>)
    ensures |r| == |ids| - Suspensions(env, n, |ids|)
  {
    if ids == [] then [] else (if Suspends(env, n) then [] else [ids[0]]) + Kept(ids[1..], env, n + 1)
  }

  /** A visit takes the company off the list exactly when it suspends it. */
  lemma VisitEffect(t: seq<Company>, c: Company, env: Env, n: nat, pre: seq<Uuid>, post: seq<Uuid>)
    requires DistinctIds(t) && !c.status.Suspended?
    requires ActiveIds(t) == pre + [c.id] + post
    ensures ActiveIds(SyncOne(t, c, env, n)) == if Suspends(env, n) then pre + post else pre + [c.id] + post
  {
    if Suspends(env, n) {
      ReplaceSuspendedRemoves(t, c.(status := Suspended), pre, post);
    } else {
      assert ActiveIds(t)[|pre|] == c.id;
      ListedIsActive(t, |pre|);
      ReplaceActiveKeeps(t, c.(status := Active));
    }
  }

  /** Visiting a page rewrites exactly the page's own stretch of the list. */
  lemma {:induction false} PageEffect(t: seq<Company>, page: seq<Company>, env: Env, n: nat, pre: seq<Uuid>, post: seq<Uuid>)
    requires DistinctIds(t)
    requires forall c :: c in page ==> !c.status.Suspended?
    requires ActiveIds(t) == pre + Ids(page) + post
    ensures ActiveIds(SyncPage(t, page, env, n)) == pre + Kept(Ids(page), env, n) + post
    decreases |page|
  {
    if page == [] {
      assert pre + [] + post == pre + post;
    } else {
      var c, tail, rest := page[0], page[1..], Kept(Ids(page[1..]), env, n + 1);
      var t' := SyncOne(t, c, env, n);
      assert Ids(page)[1..] == Ids(tail);
      Regroup(pre, c.id, Ids(tail), post);
      VisitEffect(t, c, env, n, pre, Ids(tail) + post);
      SyncOneKeepsIds(t, c, env, n);
      DistinctByIds(t, t');
      if Suspends(env, n) {
        PageEffect(t', tail, env, n + 1, pre, post);
        assert [] + rest == rest;
      } else {
        PageEffect(t', tail, env, n + 1, pre + [c.id], post);
        Regroup(pre, c.id, rest, post);
      }
    }
  }

  lemma Regroup<T>(pre: seq<T>, x: T, mid: seq<T>, post: seq<T>)
    ensures pre + ([x] + mid) + post == pre + [x] + (mid + post) == (pre + [x]) + mid + post
    ensures pre + (mid + post) == pre + mid + post
  {
  }

  /** With distinct ids, a listed id belongs to no suspended row. */
  lemma ListedIsActive(t: seq<Company>, i: nat)
    requires DistinctIds(t) && i < |ActiveIds(t)|
    ensures forall r :: r in t && r.id == ActiveIds(t)[i] ==> !r.status.Suspended?
  {
    ActiveIdsOrigin(t);
    assert ActiveIds(t)[i] in ActiveIds(t);
    var c :| c in t && c.id == ActiveIds(t)[i] && !c.status.Suspended?;
    forall r | r in t && r.id == c.id ensures r == c { }
  }

  // ---------------------------------------------------------------- the exact visiting schedule

  function Drop<T>(s: seq<T>, m: nat): seq<T> { if m >= |s| then [] else s[m..] }

  /** The visiting order in terms of the list as it was at the start: after a full page the next one
      starts one position further for each company that page suspended. */
  function Planned(list: seq<Uuid>, limit: nat, env: Env, k: nat, n: nat): seq<Uuid>
    requires limit > 0
    decreases |list|
  {
    if !env.listOk(k) then []
    else if |list| < limit then list
    else list[..limit] + Planned(Drop(list, limit + Suspensions(env, n, limit)), limit, env, k + 1, n + limit)
  }

  lemma WindowIds(t: seq<Company>, limit: nat, offset: nat)
    ensures Ids(PageOf(t, limit, offset)) == Window(ActiveIds(t), limit, offset)
  {
    ActiveIdsAreIds(t);
  }

  /** If the stretch of the list under the page shrinks to `mid`, the fixed cursor step of `limit`
      jumps over as many untouched entries as the stretch lost. */
  lemma ShrinkingWindow(list: seq<Uuid>, offset: nat, limit: nat, mid: seq<Uuid>, list': seq<Uuid>, lost: nat)
    requires offset + limit <= |list| && |mid| + lost == limit
    requires list' == list[..offset] + mid + list[offset + limit..]
    ensures Drop(list', offset + limit) == Drop(Drop(list, offset), limit + lost)
    ensures limit <= |Drop(list, offset)| && list[offset..offset + limit] == Drop(list, offset)[..limit]
  {
  }

  lemma FullPageEffect(t: seq<Company>, page: seq<Company>, limit: nat, offset: nat, env: Env, n: nat)
    requires limit > 0 && DistinctIds(t)
    requires page == PageOf(t, limit, offset) && |page| == limit
    ensures offset + limit <= |ActiveIds(t)|
    ensures Ids(page) == ActiveIds(t)[offset..offset + limit]
    ensures ActiveIds(AfterPage(t, page, env, n))
         == ActiveIds(t)[..offset] + Kept(Ids(page), env, n) + ActiveIds(t)[offset + limit..]
  {
    var list := ActiveIds(t);
    WindowIds(t, limit, offset);
    ActiveRowsFrom(t);
    assert list == list[..offset] + Ids(page) + list[offset + limit..];
    PageEffect(t, page, env, n, list[..offset], list[offset + limit..]);
  }

  /** One full page moves the cursor `limit` entries plus one for each suspension on it. */
  lemma PageMovesCursor(t: seq<Company>, page: seq<Company>, limit: nat, offset: nat, env: Env, n: nat)
    requires limit > 0 && DistinctIds(t)
    requires page == PageOf(t, limit, offset) && |page| == limit
    ensures Drop(ActiveIds(AfterPage(t, page, env, n)), offset + limit)
         == Drop(Drop(ActiveIds(t), offset), limit + Suspensions(env, n, limit))
    ensures limit <= |Drop(ActiveIds(t), offset)| && Ids(page) == Drop(ActiveIds(t), offset)[..limit]
  {
    var mid := Kept(Ids(page), env, n);
    var list, list', lost := ActiveIds(t), ActiveIds(AfterPage(t, page, env, n)), Suspensions(env, n, limit);
    FullPageEffect(t, page, limit, offset, env, n);
    assert |mid| + lost == limit;
    ShrinkingWindow(list, offset, limit, mid, list', lost);
  }

  lemma RunStep(t: seq<Company>, page: seq<Company>, limit: nat, offset: nat, env: Env, k: nat, n: nat)
    requires limit > 0 && env.listOk(k)
    requires page == PageOf(t, limit, offset) && |page| == limit
    ensures Visited(t, limit, offset, env, k, n) == Ids(page) + Visited(AfterPage(t, page, env, n), limit, offset + limit, env, k + 1, n + limit)
  {
    var rest := Run(AfterPage(t, page, env, n), limit, offset + limit, env, k + 1, n + limit).pages;
    assert Run(t, limit, offset, env, k, n).pages == [page] + rest;
    FlattenCons(page, rest);
    IdsConcat(page, Flatten(rest));
  }

  lemma RunEnd(t: seq<Company>, limit: nat, offset: nat, env: Env, k: nat, n: nat)
    requires limit > 0
    requires env.listOk(k) ==> |PageOf(t, limit, offset)| < limit
    ensures Visited(t, limit, offset, env, k, n) == Plan(Drop(ActiveIds(t), offset), limit, env, k, n)
  {
    WindowIds(t, limit, offset);
    if env.listOk(k) {
      FlattenOne(PageOf(t, limit, offset));
      assert Window(ActiveIds(t), limit, offset) == Drop(ActiveIds(t), offset);
    }
  }

  function Plan(list: seq<Uuid>, limit: nat, env: Env, k: nat, n: nat): seq<Uuid>
    requires limit > 0
  {
    Planned(list, limit, env, k, n)
  }

  lemma PlannedStep(list: seq<Uuid>, limit: nat, env: Env, k: nat, n: nat)
    requires 0 < limit <= |list| && env.listOk(k)
    ensures Plan(list, limit, env, k, n)
         == list[..limit] + Plan(Drop(list, limit + Suspensions(env, n, limit)), limit, env, k + 1, n + limit)
  {
  }

  lemma PlannedEnd(list: seq<Uuid>, limit: nat, env: Env, k: nat, n: nat)
    requires limit > 0 && (!env.listOk(k) || |list| < limit)
    ensures Plan(list, limit, env, k, n) == if env.listOk(k) then list else []
    ensures NoDup<Uuid>([])
  {
  }

  /** A run visits exactly the planned companies, in the planned order. */
  lemma {:induction false} RunFollowsPlan(t: seq<Company>, limit: nat, offset: nat, env: Env, k: nat, n: nat)
    requires limit > 0 && DistinctIds(t)
    ensures Visited(t, limit, offset, env, k, n) == Plan(Drop(ActiveIds(t), offset), limit, env, k, n)
    decreases |t| - offset
  {
    hide *;
    var page, list := PageOf(t, limit, offset), Drop(ActiveIds(t), offset);
    if env.listOk(k) && |page| == limit {
      assert page != [];
      var t' := AfterPage(t, page, env, n);
      var list' := Drop(ActiveIds(t'), offset + limit);
      assert Visited(t', limit, offset + limit, env, k + 1, n + limit) == Plan(list', limit, env, k + 1, n + limit) by {
        SyncPageKeepsIds(t, page, env, n);
        DistinctByIds(t, t');
        RunFollowsPlan(t', limit, offset + limit, env, k + 1, n + limit);
      }
      assert Plan(list, limit, env, k, n) == Ids(page) + Plan(list', limit, env, k + 1, n + limit) by {
        PageMovesCursor(t, page, limit, offset, env, n);
        PlannedStep(list, limit, env, k, n);
      }
      RunStep(t, page, limit, offset, env, k, n);
    } else {
      RunEnd(t, limit, offset, env, k, n);
    }
  }

  lemma {:induction false} IdsConcat(s: seq<Company>, t: seq<Company>)
    ensures Ids(s + t) == Ids(s) + Ids(t)
  {
  }

  lemma FlattenCons<T>(x: seq<T>, s: seq<seq<T>>)
    ensures Flatten([x] + s) == x + Flatten(s)
  {
    assert ([x] + s)[1..] == s;
  }

  lemma FlattenOne<T>(x: seq<T>)
    ensures Flatten([x]) == x
  {
    assert Flatten([x]) == x + Flatten([]);
  }

  // ---------------------------------------------------------------- what the plan misses

  ghost predicate PagesReadable(env: Env) { forall k: nat :: env.listOk(k) }

  lemma DropWithin(list: seq<Uuid>, m: nat, limit: nat)
    requires limit <= m && limit <= |list|
    ensures forall id :: id in Drop(list, m) ==> id in list[limit..]
    ensures NoDup(list) ==> NoDup(Drop(list, m))
    ensures limit > 0 ==> |Drop(list, m)| < |list|
  {
    if m < |list| { assert list[limit..][m - limit..] == list[m..]; }
  }

  lemma NoDupSplit(list: seq<Uuid>, limit: nat, tail: seq<Uuid>)
    requires NoDup(list) && limit <= |list| && NoDup(tail)
    requires forall id :: id in tail ==> id in list[limit..]
    ensures NoDup(list[..limit] + tail)
  {
    var s := list[..limit] + tail;
    forall i, j | 0 <= i < j < |s| ensures s[i] != s[j] {
      if i < limit <= j {
        assert s[j] in tail;
        var m :| 0 <= m < |list[limit..]| && list[limit..][m] == s[j];
        assert list[limit + m] == s[j];
      }
    }
  }

  /** No planned company repeats and all of them were on the list. */
  lemma {:induction false} PlanWithinList(list: seq<Uuid>, limit: nat, env: Env, k: nat, n: nat)
    requires limit > 0 && NoDup(list)
    ensures forall id :: id in Plan(list, limit, env, k, n) ==> id in list
    ensures NoDup(Plan(list, limit, env, k, n))
    decreases |list|
  {
    hide *;
    if !env.listOk(k) || |list| < limit {
      PlannedEnd(list, limit, env, k, n);
    } else {
      var m := limit + Suspensions(env, n, limit);
      DropWithin(list, m, limit);
      PlanWithinList(Drop(list, m), limit, env, k + 1, n + limit);
      NoDupSplit(list, limit, Plan(Drop(list, m), limit, env, k + 1, n + limit));
      PlannedStep(list, limit, env, k, n);
    }
  }

  /** Visits that happen on full pages. */
  function FullPageVisits(list: seq<Uuid>, limit: nat, env: Env, k: nat, n: nat): nat
    requires limit > 0
    decreases |list|
  {
    if !env.listOk(k) || |list| < limit then 0
    else limit + FullPageVisits(Drop(list, limit + Suspensions(env, n, limit)), limit, env, k + 1, n + limit)
  }

  lemma {:induction false} SuspensionsSplit(env: Env, n: nat, a: nat, b: nat)
    ensures Suspensions(env, n, a + b) == Suspensions(env, n, a) + Suspensions(env, n + a, b)
    decreases a
  {
    if a > 0 { SuspensionsSplit(env, n + 1, a - 1, b); }
  }

  /** A run whose pages can all be read misses at most one company per suspension on a full page. */
  lemma {:induction false} MissedBySuspensions(list: seq<Uuid>, limit: nat, env: Env, k: nat, n: nat)
    requires limit > 0 && PagesReadable(env)
    ensures |Plan(list, limit, env, k, n)| <= |list|
    ensures |list| - |Plan(list, limit, env, k, n)| <= Suspensions(env, n, FullPageVisits(list, limit, env, k, n))
    decreases |list|
  {
    if limit <= |list| {
      var rest := Drop(list, limit + Suspensions(env, n, limit));
      PlannedStep(list, limit, env, k, n);
      MissedBySuspensions(rest, limit, env, k + 1, n + limit);
      SuspensionsSplit(env, n, limit, FullPageVisits(rest, limit, env, k + 1, n + limit));
    }
  }

  /** Companies that lie on a page with a successor: all but the last page, which may be full. */
  function BeforeLastPage(count: nat, limit: nat): (r: nat)
    requires limit > 0
  {
    if count <= limit then 0 else limit + BeforeLastPage(count - limit, limit)
  }

  lemma {:induction false} BeforeLastPageClosed(count: nat, limit: nat) returns (pages: nat)
    requires limit > 0 && count > 0
    ensures BeforeLastPage(count, limit) == pages * limit < count <= (pages + 1) * limit
    decreases count
  {
    pages := 0;
    if count > limit {
      var q := BeforeLastPageClosed(count - limit, limit);
      pages := q + 1;
    }
  }

  /** Every listed company is visited if and only if no visit before the last page suspends. */
  lemma {:induction false} CompleteExactlyWhen(list: seq<Uuid>, limit: nat, env: Env, k: nat, n: nat)
    requires limit > 0 && PagesReadable(env)
    ensures Plan(list, limit, env, k, n) == list <==> Suspensions(env, n, BeforeLastPage(|list|, limit)) == 0
    decreases |list|
  {
    hide Plan, Suspensions, FullPageVisits;
    if |list| <= limit {
      NoSuspensions(env, n);
      PlanOfOnePage(list, limit, env, k, n);
    } else {
      var s := Suspensions(env, n, limit);
      var rest := Drop(list, limit + s);
      PlannedStep(list, limit, env, k, n);
      SuspensionsSplit(env, n, limit, BeforeLastPage(|list| - limit, limit));
      if s == 0 {
        assert list == list[..limit] + rest;
        CompleteExactlyWhen(rest, limit, env, k + 1, n + limit);
        ConcatCancel(list[..limit], Plan(rest, limit, env, k + 1, n + limit), rest);
      } else {
        MissedBySuspensions(rest, limit, env, k + 1, n + limit);
        assert |Plan(list, limit, env, k, n)| < |list|;
      }
    }
  }

  lemma NoSuspensions(env: Env, n: nat)
    ensures Suspensions(env, n, 0) == 0
  {
  }

  lemma PlanOfOnePage(list: seq<Uuid>, limit: nat, env: Env, k: nat, n: nat)
    requires limit > 0 && |list| <= limit && PagesReadable(env)
    ensures Plan(list, limit, env, k, n) == list
  {
    hide Suspensions;
    if |list| == limit {
      PlannedStep(list, limit, env, k, n);
      PlannedEnd(Drop(list, limit + Suspensions(env, n, limit)), limit, env, k + 1, n + limit);
      assert list[..limit] == list;
    }
  }

  lemma ConcatCancel<T>(x: seq<T>, y: seq<T>, z: seq<T>)
    ensures x + y == x + z <==> y == z
  {
    if x + y == x + z {
      assert y == (x + y)[|x|..] && z == (x + z)[|x|..];
    }
  }

  // ---------------------------------------------------------------- what a run leaves behind

  /** The status a company has after visit `n`, when it had status `before` until then. */
  function Settled(before: Status, env: Env, n: nat): Status {
    if Wanted(env, n).Some? && env.updateOk(n) then Wanted(env, n).value else before
  }

  /** `u` is `t` with each visited company's status settled by its visit, the first of which is visit
      `n`, and nothing else changed. */
  ghost predicate Settles(t: seq<Company>, u: seq<Company>, visits: seq<Uuid>, env: Env, n: nat) {
    && |u| == |t|
    && (forall i, m :: 0 <= i < |t| && 0 <= m < |visits| && visits[m] == t[i].id ==>
          u[i] == t[i].(status := Settled(t[i].status, env, n + m)))
    && (forall i :: 0 <= i < |t| && t[i].id !in visits ==> u[i] == t[i])
  }

  ghost predicate Apart(x: seq<Uuid>, y: seq<Uuid>) { forall id :: id in x ==> id !in y }

  lemma SettlesCompose(t: seq<Company>, u: seq<Company>, v: seq<Company>, x: seq<Uuid>, y: seq<Uuid>, env: Env, n: nat)
    requires Settles(t, u, x, env, n) && Settles(u, v, y, env, n + |x|) && Apart(x, y)
    ensures Settles(t, v, x + y, env, n)
  {
    hide Settled;
    var z := x + y;
    forall i, m | 0 <= i < |t| && 0 <= m < |z| && z[m] == t[i].id
      ensures v[i] == t[i].(status := Settled(t[i].status, env, n + m))
    {
      if m < |x| {
        assert x[m] in x && u[i].id == t[i].id;
      } else {
        assert z[m] == y[m - |x|] && y[m - |x|] in y;
        assert t[i].id !in x && u[i] == t[i];
      }
    }
    assert forall id :: id in z <==> id in x || id in y;
  }

  lemma SettlesNone(t: seq<Company>, env: Env, n: nat)
    ensures Settles(t, t, [], env, n)
  {
  }

  lemma VisitSettles(t: seq<Company>, c: Company, env: Env, n: nat)
    requires DistinctIds(t) && c in t
    ensures Settles(t, SyncOne(t, c, env, n), [c.id], env, n)
  {
    var u := SyncOne(t, c, env, n);
    forall i | 0 <= i < |t| ensures u[i] == if t[i].id == c.id then t[i].(status := Settled(t[i].status, env, n)) else t[i] {
      if t[i].id == c.id { assert t[i] == c; }
    }
  }

  lemma {:induction false} PageSettles(t: seq<Company>, page: seq<Company>, env: Env, n: nat)
    requires DistinctIds(t) && NoDup(Ids(page)) && forall c :: c in page ==> c in t
    ensures Settles(t, AfterPage(t, page, env, n), Ids(page), env, n)
    decreases |page|
  {
    hide Settles, SyncOne, DistinctIds;
    if page == [] {
      SettlesNone(t, env, n);
    } else {
      var c, rest := page[0], page[1..];
      var u := SyncOne(t, c, env, n);
      assert c in page;
      VisitSettles(t, c, env, n);
      SyncOneKeepsIds(t, c, env, n);
      DistinctByIds(t, u);
      assert Ids(page) == [c.id] + Ids(rest);
      assert NoDup(Ids(rest)) && Apart([c.id], Ids(rest)) by {
        assert Ids(rest) == Ids(page)[1..];
        assert forall i :: 0 <= i < |Ids(rest)| ==> Ids(rest)[i] == Ids(page)[i + 1] != Ids(page)[0];
      }
      forall d | d in rest ensures d in u {
        assert d in page;
        var j :| 0 <= j < |rest| && rest[j] == d;
        assert Ids(rest)[j] == d.id && d.id in Ids(rest);
        StillThere(t, u, c.id, env, n, d);
      }
      PageSettles(u, rest, env, n + 1);
      SettlesCompose(t, u, AfterPage(u, rest, env, n + 1), [c.id], Ids(rest), env, n);
    }
  }

  lemma StillThere(t: seq<Company>, u: seq<Company>, id: Uuid, env: Env, n: nat, d: Company)
    requires Settles(t, u, [id], env, n) && d in t && d.id != id
    ensures d in u
  {
    var i :| 0 <= i < |t| && t[i] == d;
    assert u[i] == d;
  }

  function FinalRows(t: seq<Company>, limit: nat, offset: nat, env: Env, k: nat, n: nat): seq<Company>
    requires limit > 0
  {
    Run(t, limit, offset, env, k, n).rows
  }

  ghost predicate Succeeds(t: seq<Company>, limit: nat, offset: nat, env: Env, k: nat, n: nat)
    requires limit > 0
  {
    Run(t, limit, offset, env, k, n).ok
  }

  lemma PageRowsKnown(t: seq<Company>, limit: nat, offset: nat)
    ensures forall c :: c in PageOf(t, limit, offset) ==> c in t
  {
    ActiveRowsFrom(t);
  }

  /** An unreadable or empty page ends the run where it is. */
  lemma EmptyEnd(t: seq<Company>, limit: nat, offset: nat, env: Env, k: nat, n: nat)
    requires limit > 0 && (env.listOk(k) ==> PageOf(t, limit, offset) == [])
    ensures FinalRows(t, limit, offset, env, k, n) == t && Visited(t, limit, offset, env, k, n) == []
    ensures Succeeds(t, limit, offset, env, k, n) <==> env.listOk(k)
  {
  }

  lemma RowsStep(t: seq<Company>, page: seq<Company>, limit: nat, offset: nat, env: Env, k: nat, n: nat)
    requires limit > 0 && env.listOk(k) && page == PageOf(t, limit, offset) && page != []
    ensures |page| < limit ==> FinalRows(t, limit, offset, env, k, n) == AfterPage(t, page, env, n)
    ensures |page| < limit ==> Visited(t, limit, offset, env, k, n) == Ids(page)
    ensures |page| == limit ==>
              FinalRows(t, limit, offset, env, k, n) == FinalRows(AfterPage(t, page, env, n), limit, offset + limit, env, k + 1, n + limit)
    ensures |page| < limit ==> Succeeds(t, limit, offset, env, k, n)
    ensures |page| == limit ==>
              Succeeds(t, limit, offset, env, k, n) == Succeeds(AfterPage(t, page, env, n), limit, offset + limit, env, k + 1, n + limit)
  {
    if |page| < limit { FlattenOne(page); }
  }

  /** A run succeeds when all its pages can be read, and fails, changing nothing, when its first page cannot. */
  lemma {:induction false} SucceedsWhenReadable(t: seq<Company>, limit: nat, offset: nat, env: Env, k: nat, n: nat)
    requires limit > 0
    ensures PagesReadable(env) ==> Succeeds(t, limit, offset, env, k, n)
    ensures !env.listOk(k) ==> !Succeeds(t, limit, offset, env, k, n) && FinalRows(t, limit, offset, env, k, n) == t
    decreases |t| - offset
  {
    hide Succeeds, FinalRows, AfterPage, Visited, PageOf;
    var page := PageOf(t, limit, offset);
    if !env.listOk(k) || page == [] {
      EmptyEnd(t, limit, offset, env, k, n);
    } else {
      RowsStep(t, page, limit, offset, env, k, n);
      if |page| == limit { SucceedsWhenReadable(AfterPage(t, page, env, n), limit, offset + limit, env, k + 1, n + limit); }
    }
  }

  lemma VisitedNoDup(t: seq<Company>, limit: nat, offset: nat, env: Env, k: nat, n: nat)
    requires limit > 0 && DistinctIds(t)
    ensures NoDup(Visited(t, limit, offset, env, k, n))
    ensures forall id :: id in Visited(t, limit, offset, env, k, n) ==> id in ActiveIds(t)
  {
    hide Visited, Plan, ActiveIds;
    RunFollowsPlan(t, limit, offset, env, k, n);
    ActiveIdsDistinct(t);
    PlanWithinList(Drop(ActiveIds(t), offset), limit, env, k, n);
  }

  lemma NoDupParts(x: seq<Uuid>, y: seq<Uuid>)
    requires NoDup(x + y)
    ensures NoDup(x) && Apart(x, y)
  {
    assert forall i :: 0 <= i < |x| ==> (x + y)[i] == x[i];
    assert forall j :: 0 <= j < |y| ==> (x + y)[|x| + j] == y[j];
  }

  /** A run settles every company it visited by its own visit, and changes nothing else. */
  lemma {:induction false} RunSettles(t: seq<Company>, limit: nat, offset: nat, env: Env, k: nat, n: nat)
    requires limit > 0 && DistinctIds(t)
    ensures Settles(t, FinalRows(t, limit, offset, env, k, n), Visited(t, limit, offset, env, k, n), env, n)
    decreases |t| - offset
  {
    hide *;
    var page := PageOf(t, limit, offset);
    if !env.listOk(k) || page == [] {
      EmptyEnd(t, limit, offset, env, k, n);
      SettlesNone(t, env, n);
    } else {
      var t' := AfterPage(t, page, env, n);
      PageRowsKnown(t, limit, offset);
      VisitedNoDup(t, limit, offset, env, k, n);
      RowsStep(t, page, limit, offset, env, k, n);
      if |page| < limit {
        PageSettles(t, page, env, n);
      } else {
        var u, later := FinalRows(t', limit, offset + limit, env, k + 1, n + limit), Visited(t', limit, offset + limit, env, k + 1, n + limit);
        RunStep(t, page, limit, offset, env, k, n);
        NoDupParts(Ids(page), later);
        PageSettles(t, page, env, n);
        SyncPageKeepsIds(t, page, env, n);
        DistinctByIds(t, t');
        RunSettles(t', limit, offset + limit, env, k + 1, n + limit);
        SettlesCompose(t, t', u, Ids(page), later, env, n);
      }
    }
  }

  /** The registry answered visit `n` with this situation. */
  predicate Answered(env: Env, n: nat, situacao: string) { env.hasLookup && env.lookup(n) == Found(situacao) }

  /** The registry answered visit `n` with a situation in which a company is suspended. */
  predicate AnsweredClosed(env: Env, n: nat) {
    Answered(env, n, "BAIXADA") || Answered(env, n, "INAPTA") || Answered(env, n, "NULA") || Answered(env, n, "SUSPENSA")
  }

  /** What visit `n` leaves of a row that was listed: suspended exactly for the four situations, active for ATIVA, and as it
      was for every other text, for no answer and for a failed update. */
  ghost predicate FollowsRegistry(before: Company, after: Company, env: Env, n: nat) {
    && after == before.(status := after.status)
    && (after.status.Suspended? <==> AnsweredClosed(env, n) && env.updateOk(n))
    && (Answered(env, n, "ATIVA") && env.updateOk(n) ==> after.status.Active?)
    && (!(AnsweredClosed(env, n) || Answered(env, n, "ATIVA")) || !env.updateOk(n) ==> after == before)
  }

  lemma SettledFollows(before: Company, env: Env, n: nat)
    requires !before.status.Suspended?
    ensures FollowsRegistry(before, before.(status := Settled(before.status, env, n)), env, n)
  {
  }

  /** A run does to each company it visits what the registry's answer to that visit says. */
  lemma RunFollowsRegistry(t: seq<Company>, limit: nat, offset: nat, env: Env, i: nat, m: nat)
    requires limit > 0 && DistinctIds(t) && i < |t|
    requires m < |Visited(t, limit, offset, env, 0, 0)| && Visited(t, limit, offset, env, 0, 0)[m] == t[i].id
    ensures |FinalRows(t, limit, offset, env, 0, 0)| == |t|
    ensures !t[i].status.Suspended? && FollowsRegistry(t[i], FinalRows(t, limit, offset, env, 0, 0)[i], env, m)
  {
    hide Visited, FinalRows, FollowsRegistry, Settled, ActiveIds;
    RunSettles(t, limit, offset, env, 0, 0);
    VisitedNoDup(t, limit, offset, env, 0, 0);
    var visits := Visited(t, limit, offset, env, 0, 0);
    assert visits[m] in visits;
    var k :| 0 <= k < |ActiveIds(t)| && ActiveIds(t)[k] == t[i].id;
    ListedIsActive(t, k);
    assert t[i] in t;
    SettledFollows(t[i], env, m);
  }

  lemma RegistryFollowed(t: seq<Company>, env: Env)
    requires DistinctIds(t)
    ensures var visits, u := Visited(t, LIMIT, 0, env, 0, 0), FinalRows(t, LIMIT, 0, env, 0, 0);
            |u| == |t| && forall i, m :: 0 <= i < |t| && 0 <= m < |visits| && visits[m] == t[i].id ==> FollowsRegistry(t[i], u[i], env, m)
  {
    hide Visited, FinalRows, FollowsRegistry;
    RunSettles(t, LIMIT, 0, env, 0, 0);
    var visits, u := Visited(t, LIMIT, 0, env, 0, 0), FinalRows(t, LIMIT, 0, env, 0, 0);
    forall i, m | 0 <= i < |t| && 0 <= m < |visits| && visits[m] == t[i].id ensures FollowsRegistry(t[i], u[i], env, m) {
      RunFollowsRegistry(t, LIMIT, 0, env, i, m);
    }
  }

  /** The run from `t`, `offset`, page `k` on completes the run from `t0` that has visited `visits` so far. */
  ghost predicate Resumes(t0: seq<Company>, limit: nat, env: Env, t: seq<Company>, offset: nat, k: nat, visits: seq<Uuid>)
    requires limit > 0
  {
    && DistinctIds(t) && |t| == |t0|
    && FinalRows(t0, limit, 0, env, 0, 0) == FinalRows(t, limit, offset, env, k, |visits|)
    && Visited(t0, limit, 0, env, 0, 0) == visits + Visited(t, limit, offset, env, k, |visits|)
    && Succeeds(t0, limit, 0, env, 0, 0) == Succeeds(t, limit, offset, env, k, |visits|)
  }

  /** `t`, `visits` and `ok` are what the run from `t0` ends with. */
  ghost predicate Completes(t0: seq<Company>, limit: nat, env: Env, t: seq<Company>, visits: seq<Uuid>, ok: bool)
    requires limit > 0
  {
    && DistinctIds(t)
    && t == FinalRows(t0, limit, 0, env, 0, 0)
    && visits == Visited(t0, limit, 0, env, 0, 0)
    && ok == Succeeds(t0, limit, 0, env, 0, 0)
  }

  lemma ResumeStart(t: seq<Company>, limit: nat, env: Env)
    requires limit > 0 && DistinctIds(t)
    ensures Resumes(t, limit, env, t, 0, 0, [])
  {
    hide FinalRows, Visited, Succeeds;
  }

  lemma ResumeEmpty(t0: seq<Company>, limit: nat, env: Env, t: seq<Company>, offset: nat, k: nat, visits: seq<Uuid>)
    requires limit > 0 && Resumes(t0, limit, env, t, offset, k, visits)
    requires env.listOk(k) ==> PageOf(t, limit, offset) == []
    ensures Completes(t0, limit, env, t, visits, env.listOk(k))
  {
    hide FinalRows, Visited, Succeeds;
    EmptyEnd(t, limit, offset, env, k, |visits|);
  }

  lemma ResumePage(t0: seq<Company>, limit: nat, env: Env, t: seq<Company>, offset: nat, k: nat, visits: seq<Uuid>, page: seq<Company>)
    requires limit > 0 && Resumes(t0, limit, env, t, offset, k, visits)
    requires env.listOk(k) && page == PageOf(t, limit, offset) && page != []
    ensures var t', visits' := AfterPage(t, page, env, |visits|), visits + Ids(page);
            if |page| < limit then Completes(t0, limit, env, t', visits', true)
            else Resumes(t0, limit, env, t', offset + limit, k + 1, visits')
  {
    hide FinalRows, Visited, Succeeds, AfterPage, Ids, PageOf, DistinctIds;
    var n := |visits|;
    RowsStep(t, page, limit, offset, env, k, n);
    SyncPageKeepsIds(t, page, env, n);
    DistinctByIds(t, AfterPage(t, page, env, n));
    if |page| == limit { RunStep(t, page, limit, offset, env, k, n); }
    assert |visits + Ids(page)| == n + |page|;
  }

  /** The whole job, from the first page. */
  lemma SyncAllTheorem(t: seq<Company>, limit: nat, env: Env)
    requires limit > 0 && DistinctIds(t)
    ensures var list, visits := ActiveIds(t), Visited(t, limit, 0, env, 0, 0);
            && NoDup(visits)
            && (forall id :: id in visits ==> id in list)
            && Settles(t, FinalRows(t, limit, 0, env, 0, 0), visits, env, 0)
            && (PagesReadable(env) ==>
                  && |list| - |visits| <= Suspensions(env, 0, FullPageVisits(list, limit, env, 0, 0))
                  && (visits == list <==> Suspensions(env, 0, BeforeLastPage(|list|, limit)) == 0))
  {
    var list := ActiveIds(t);
    RunFollowsPlan(t, limit, 0, env, 0, 0);
    assert Drop(list, 0) == list;
    ActiveIdsDistinct(t);
    PlanWithinList(list, limit, env, 0, 0);
    RunSettles(t, limit, 0, env, 0, 0);
    if PagesReadable(env) {
      MissedBySuspensions(list, limit, env, 0, 0);
      CompleteExactlyWhen(list, limit, env, 0, 0);
    }
  }

  // ---------------------------------------------------------------- a run that misses a company

  lemma {:induction false} AllActiveListed(t: seq<Company>)
    requires forall c :: c in t ==> !c.status.Suspended?
    ensures ActiveIds(t) == Ids(t)
  {
    if t != [] {
      AllActiveListed(t[1..]);
      assert Ids(t) == [t[0].id] + Ids(t[1..]);
    }
  }

  /** Of 51 active companies, when the lookup closes the first one, the 51st is neither visited nor changed. */
  lemma FiftyFirstMissed()
    ensures var t := seq(51, i requires 0 <= i < 51 => Company(i, 0, "", "", Active));
            var env := Env(true, n => if n == 0 then Found("BAIXADA") else Found("ATIVA"), n => true, k => true);
            && DistinctIds(t) && 50 in ActiveIds(t) && |FinalRows(t, LIMIT, 0, env, 0, 0)| == 51
            && 50 !in Visited(t, LIMIT, 0, env, 0, 0)
            && FinalRows(t, LIMIT, 0, env, 0, 0)[0].status == Suspended
            && FinalRows(t, LIMIT, 0, env, 0, 0)[50] == t[50]
  {
    var t := seq(51, i requires 0 <= i < 51 => Company(i, 0, "", "", Active));
    var env := Env(true, n => if n == 0 then Found("BAIXADA") else Found("ATIVA"), n => true, k => true);
    MissedAfterFirst(t, env);
  }

  /** In general: with one company more than a page holds and the first visit suspending, the last is missed. */
  lemma MissedAfterFirst(t: seq<Company>, env: Env)
    requires DistinctIds(t) && |t| == LIMIT + 1 && (forall c :: c in t ==> !c.status.Suspended?)
    requires PagesReadable(env) && Suspends(env, 0)
    ensures t[LIMIT].id in ActiveIds(t) && t[LIMIT].id !in Visited(t, LIMIT, 0, env, 0, 0)
    ensures |FinalRows(t, LIMIT, 0, env, 0, 0)| == |t| && FinalRows(t, LIMIT, 0, env, 0, 0)[LIMIT] == t[LIMIT]
    ensures FinalRows(t, LIMIT, 0, env, 0, 0)[0] == t[0].(status := Suspended)
  {
    hide Run, Plan, Visited, Suspensions, FinalRows, Suspends, Settled;
    var list, s := Ids(t), Suspensions(env, 0, LIMIT);
    AllActiveListed(t);
    RunFollowsPlan(t, LIMIT, 0, env, 0, 0);
    assert Drop(list, 0) == list;
    FirstCounts(env, LIMIT);
    PlannedStep(list, LIMIT, env, 0, 0);
    assert Drop(list, LIMIT + s) == [];
    PlannedEnd([], LIMIT, env, 1, LIMIT);
    assert Visited(t, LIMIT, 0, env, 0, 0) == list[..LIMIT];
    assert list[LIMIT] == t[LIMIT].id && list[..LIMIT][0] == t[0].id;
    RunSettles(t, LIMIT, 0, env, 0, 0);
    FirstSettled(t[0].status, env);
  }

  lemma FirstSettled(before: Status, env: Env)
    requires Suspends(env, 0)
    ensures Settled(before, env, 0) == Suspended
  {
  }

  lemma FirstCounts(env: Env, len: nat)
    requires Suspends(env, 0) && len > 0
    ensures Suspensions(env, 0, len) >= 1
  {
  }

  // ---------------------------------------------------------------- the counters

  /** The registry asks visit `n` to change the status of `c`. */
  predicate AsksChange(c: Company, env: Env, n: nat) {
    (Answered(env, n, "ATIVA") && !c.status.Active?) || (AnsweredClosed(env, n) && !c.status.Suspended?)
  }

  predicate VisitUpdates(ids: seq<Uuid>, c: Company, env: Env, n: nat) { AsksChange(c, env, n) && env.updateOk(n) && c.id in ids }

  /** The lookup failed, or a change was asked for and could not be written. */
  predicate VisitFails(ids: seq<Uuid>, c: Company, env: Env, n: nat) {
    (env.hasLookup && env.lookup(n).LookupFailed?) || (AsksChange(c, env, n) && !(env.updateOk(n) && c.id in ids))
  }

  /** How many of the first `k` visits of a page update a row, or fail. */
  function Count(page: seq<Company>, k: nat, ids: seq<Uuid>, env: Env, n: nat, updates: bool): nat
    requires k <= |page|
  {
    if k == 0 then 0
    else Count(page, k - 1, ids, env, n, updates)
         + if (if updates then VisitUpdates(ids, page[k - 1], env, n + k - 1) else VisitFails(ids, page[k - 1], env, n + k - 1)) then 1 else 0
  }

  lemma CountStart(page: seq<Company>, ids: seq<Uuid>, env: Env, n: nat)
    ensures Count(page, 0, ids, env, n, true) == 0 == Count(page, 0, ids, env, n, false)
  {
  }

  lemma CountNext(page: seq<Company>, i: nat, ids: seq<Uuid>, env: Env, n: nat)
    requires i < |page|
    ensures Count(page, i + 1, ids, env, n, true) == Count(page, i, ids, env, n, true) + if VisitUpdates(ids, page[i], env, n + i) then 1 else 0
    ensures Count(page, i + 1, ids, env, n, false) == Count(page, i, ids, env, n, false) + if VisitFails(ids, page[i], env, n + i) then 1 else 0
    ensures !(VisitUpdates(ids, page[i], env, n + i) && VisitFails(ids, page[i], env, n + i))
  {
  }

  lemma PageEnd(t: seq<Company>, env: Env, n: nat)
    ensures AfterPage(t, [], env, n) == t
  {
  }

  lemma PageTail(t: seq<Company>, page: seq<Company>, i: nat, env: Env, n: nat)
    requires i < |page|
    ensures AfterPage(t, page[i..], env, n + i) == AfterPage(SyncOne(t, page[i], env, n + i), page[i + 1..], env, n + (i + 1))
  {
    hide SyncOne;
    assert page[i..][1..] == page[i + 1..] && page[i..][0] == page[i];
  }

  class CompanySyncService {
    const repo: CompanyRepository
    const env: Env

    constructor (repo: CompanyRepository, env: Env)
      ensures this.repo == repo && this.env == env
    {
      this.repo := repo;
      this.env := env;
    }

    method SyncCompany(comp: Company, n: nat) returns (updated: bool, failed: bool)
      modifies repo
      ensures repo.rows == SyncOne(old(repo.rows), comp, env, n)
      ensures updated <==> Wanted(env, n).Some? && Wanted(env, n).value != comp.status
                           && env.updateOk(n) && comp.id in Ids(old(repo.rows))
      ensures failed <==> env.hasLookup && (env.lookup(n).LookupFailed?
                            || (Wanted(env, n).Some? && Wanted(env, n).value != comp.status && !updated))
      // the same over the situation text
      ensures updated <==> env.updateOk(n) && comp.id in Ids(old(repo.rows))
                           && ((Answered(env, n, "ATIVA") && !comp.status.Active?) || (AnsweredClosed(env, n) && !comp.status.Suspended?))
      ensures updated == VisitUpdates(Ids(old(repo.rows)), comp, env, n) && failed == VisitFails(Ids(old(repo.rows)), comp, env, n)
    {
      if !env.hasLookup { return false, false; }
      match env.lookup(n)
      case LookupFailed => return false, true;
      case NotFound => return false, false;
      case Found(situacao) =>
        var newStatus := MapSituacao(situacao);
        if newStatus.None? || comp.status == newStatus.value { return false, false; }
        var ok := repo.Update(comp.(status := newStatus.value), env.updateOk(n));
        if !ok && env.updateOk(n) { MissingRow(repo.rows, comp.(status := newStatus.value)); }
        return ok, !ok;
    }

    /** The inner loop of SyncAll: visits one page, starting with visit `n`. */
    method SyncCompanies(companies: seq<Company>, n: nat) returns (processed: nat, updated: nat, errors: nat)
      modifies repo
      ensures repo.rows == AfterPage(old(repo.rows), companies, env, n)
      ensures processed + errors == |companies| && updated <= processed
      ensures updated == Count(companies, |companies|, Ids(old(repo.rows)), env, n, true)
      ensures errors == Count(companies, |companies|, Ids(old(repo.rows)), env, n, false)
    {
      hide Ids, SyncOne, Wanted, VisitUpdates, VisitFails, AfterPage, Count;
      processed, updated, errors := 0, 0, 0;
      var i := 0;
      ghost var ids := Ids(repo.rows);
      CountStart(companies, ids, env, n);
      assert companies[0..] == companies;
      while i < |companies|
        invariant 0 <= i <= |companies| && processed + errors == i && updated <= processed && Ids(repo.rows) == ids
        invariant updated == Count(companies, i, ids, env, n, true) && errors == Count(companies, i, ids, env, n, false)
        invariant AfterPage(old(repo.rows), companies, env, n) == AfterPage(repo.rows, companies[i..], env, n + i)
      {
        SyncOneKeepsIds(repo.rows, companies[i], env, n + i);
        PageTail(repo.rows, companies, i, env, n);
        CountNext(companies, i, ids, env, n);
        var changed, failed := SyncCompany(companies[i], n + i);
        if failed {
          errors := errors + 1;
        } else {
          if changed { updated := updated + 1; }
          processed := processed + 1;
        }
        i := i + 1;
      }
      assert companies[i..] == [];
      PageEnd(repo.rows, env, n + i);
    }

    /** SyncAll. `visits` lists the companies it looked at. */
    method SyncAll() returns (ok: bool, totalProcessed: nat, totalUpdated: nat, totalErrors: nat, ghost visits: seq<Uuid>)
      requires DistinctIds(repo.rows)
      modifies repo
      ensures Completes(old(repo.rows), LIMIT, env, repo.rows, visits, ok)
      ensures totalProcessed + totalErrors == |visits| && totalUpdated <= totalProcessed
      // no company is visited twice, only companies listed at the start are visited, each visit settles its company, nothing else changes
      ensures NoDup(visits) && forall id :: id in visits ==> id in ActiveIds(old(repo.rows))
      ensures PagesReadable(env) ==> ok
      ensures !env.listOk(0) ==> !ok && repo.rows == old(repo.rows)
      ensures Settles(old(repo.rows), repo.rows, visits, env, 0)
      ensures |repo.rows| == |old(repo.rows)|
      ensures forall i, m :: 0 <= i < |repo.rows| && 0 <= m < |visits| && visits[m] == old(repo.rows)[i].id ==>
                FollowsRegistry(old(repo.rows)[i], repo.rows[i], env, m)
    {
      SyncAllTheorem(repo.rows, LIMIT, env);
      RegistryFollowed(repo.rows, env);
      SucceedsWhenReadable(repo.rows, LIMIT, 0, env, 0, 0);
      ok, totalProcessed, totalUpdated, totalErrors, visits := SyncPages(LIMIT);
    }

    /** The paging loop, for any page size. */
    method SyncPages(limit: nat) returns (ok: bool, totalProcessed: nat, totalUpdated: nat, totalErrors: nat, ghost visits: seq<Uuid>)
      requires limit > 0 && DistinctIds(repo.rows)
      modifies repo
      ensures Completes(old(repo.rows), limit, env, repo.rows, visits, ok)
      ensures totalProcessed + totalErrors == |visits| && totalUpdated <= totalProcessed
    {
      hide *;
      var offset, page := 0, 0;
      ghost var rows0 := repo.rows;
      totalProcessed, totalUpdated, totalErrors, visits := 0, 0, 0, [];
      ResumeStart(rows0, limit, env);
      while true
        invariant Resumes(rows0, limit, env, repo.rows, offset, page, visits) && |repo.rows| == |rows0|
        invariant totalProcessed + totalErrors == |visits| && totalUpdated <= totalProcessed
        decreases |repo.rows| - offset
      {
        ghost var rows := repo.rows;
        if !env.listOk(page) {
          ResumeEmpty(rows0, limit, env, rows, offset, page, visits);
          return false, totalProcessed, totalUpdated, totalErrors, visits;
        }
        var companies := repo.ListAllActive(limit, offset);
        if |companies| == 0 {
          ResumeEmpty(rows0, limit, env, rows, offset, page, visits);
          break;
        }
        ResumePage(rows0, limit, env, rows, offset, page, visits, companies);
        var processed, updated, errors := SyncCompanies(companies, totalProcessed + totalErrors);
        totalProcessed, totalUpdated, totalErrors := totalProcessed + processed, totalUpdated + updated, totalErrors + errors;
        visits := visits + Ids(companies);
        page := page + 1;
        offset := offset + limit;
        if |companies| < limit { break; }
      }
      return true, totalProcessed, totalUpdated, totalErrors, visits;
    }
  }
}
