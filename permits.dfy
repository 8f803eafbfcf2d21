/** The context registry and its page permits as values: the name-to-wrapper
    map, and the transitions that creating a context, opening a page,
    closing or crashing a page, and closing a context make to it. */
module Permits {
  import opened Common

  /** `BrowserContextWrapper`: the engine's context handle, whether the
      context is persistent, and the free permits of its page semaphore. */
  datatype ContextWrapper = ContextWrapper(context: nat, persistent: bool, pagePermits: int)

  type Registry = map<string, ContextWrapper>

  /** The page close/crash callback as the handler writes it: one permit
      back to the context registered under the page's context name, if any,
      with no regard to whether this page already gave its permit back. */
  function ReleaseByName(reg: Registry, name: string): (r: Registry)
    ensures r.Keys == reg.Keys
    ensures name in reg ==>
      r[name].pagePermits == reg[name].pagePermits + 1 &&
      r[name].context == reg[name].context && r[name].persistent == reg[name].persistent
    ensures forall n :: n in reg && n != name ==> r[n] == reg[n]
  {
    if name in reg then reg[name := reg[name].(pagePermits := reg[name].pagePermits + 1)] else reg
  }

  /** `semaphore.acquire()` on a context's page semaphore; the blocking
      wait is the precondition that a permit is free. */
  function AcquireByName(reg: Registry, name: string): (r: Registry)
    requires name in reg && reg[name].pagePermits > 0
    ensures r.Keys == reg.Keys
    ensures r[name] == reg[name].(pagePermits := reg[name].pagePermits - 1)
    ensures forall n :: n in reg && n != name ==> r[n] == reg[n]
  {
    reg[name := reg[name].(pagePermits := reg[name].pagePermits - 1)]
  }

  /** The same callback is registered for both `close` and `crash`, so a
      page that crashes and is then closed gives two permits back for the
      one it took: a fresh context with one page opened ends above its
      ceiling. */
  lemma CrashThenCloseExceedsCeiling(ceiling: nat, context: nat)
    requires ceiling > 0
    ensures var withPage := AcquireByName(map["default" := ContextWrapper(context, false, ceiling)], "default");
            var crashed := ReleaseByName(withPage, "default");
            ReleaseByName(crashed, "default")["default"].pagePermits == ceiling + 1
  {
  }

  /** The registry together with the pages that still hold a permit, each
      mapped to the name of the context it took the permit from. */
  datatype Pool<P> = Pool(wrappers: Registry, holders: map<P, string>)

  ghost function HoldersOf<P>(holders: map<P, string>, name: string): set<P>
  {
    set p | p in holders && holders[p] == name
  }

  /** Every page holding a permit belongs to a registered context, and for
      every context the free permits plus the pages holding one make up the
      ceiling. */
  ghost predicate Accounted<P>(pool: Pool<P>, ceiling: int)
  {
    && (forall p :: p in pool.holders ==> pool.holders[p] in pool.wrappers)
    && (forall n :: n in pool.wrappers ==>
          0 <= pool.wrappers[n].pagePermits &&
          pool.wrappers[n].pagePermits + |HoldersOf(pool.holders, n)| == ceiling)
  }

  function DropHolders<P>(holders: map<P, string>, name: string): map<P, string>
  {
    map p | p in holders && holders[p] != name :: holders[p]
  }

  /** A context registered under `name` with a full page semaphore; pages
      of a context it replaces no longer count against this name. */
  function RegisterContext<P>(pool: Pool<P>, name: string, wrapper: ContextWrapper): (r: Pool<P>)
    ensures r.wrappers.Keys == pool.wrappers.Keys + {name} && r.wrappers[name] == wrapper
    ensures forall n :: n in pool.wrappers && n != name ==> r.wrappers[n] == pool.wrappers[n]
    ensures r.holders.Keys <= pool.holders.Keys
  {
    Pool(pool.wrappers[name := wrapper], DropHolders(pool.holders, name))
  }

  /** A new page `p` takes one permit of the context `name`. */
  function OpenPage<P>(pool: Pool<P>, name: string, p: P): (r: Pool<P>)
    requires name in pool.wrappers && pool.wrappers[name].pagePermits > 0
    ensures r.wrappers.Keys == pool.wrappers.Keys
    ensures r.wrappers[name].pagePermits == pool.wrappers[name].pagePermits - 1
    ensures forall n :: n in pool.wrappers && n != name ==> r.wrappers[n] == pool.wrappers[n]
    ensures r.holders.Keys == pool.holders.Keys + {p} && r.holders[p] == name
    ensures r.holders - {p} == pool.holders - {p}
  {
    Pool(AcquireByName(pool.wrappers, name), pool.holders[p := name])
  }

  /** The close/crash callback releasing once per page: only a page that
      still holds a permit gives it back. */
  function ReleasePageOnce<P>(pool: Pool<P>, p: P): (r: Pool<P>)
    ensures p !in r.holders && r.holders == pool.holders - {p}
    ensures r.wrappers.Keys == pool.wrappers.Keys
    ensures p in pool.holders && pool.holders[p] in pool.wrappers ==>
      r.wrappers[pool.holders[p]].pagePermits == pool.wrappers[pool.holders[p]].pagePermits + 1
    ensures forall n :: n in pool.wrappers && !(p in pool.holders && pool.holders[p] == n) ==>
      r.wrappers[n] == pool.wrappers[n]
  {
    if p in pool.holders
    then Pool(ReleaseByName(pool.wrappers, pool.holders[p]), pool.holders - {p})
    else pool
  }

  /** The context-close callback: its wrapper is removed, tolerating its
      absence, and its pages no longer hold permits. */
  function CloseContext<P>(pool: Pool<P>, name: string): (r: Pool<P>)
    ensures r.wrappers.Keys == pool.wrappers.Keys - {name}
    ensures forall n :: n in r.wrappers ==> r.wrappers[n] == pool.wrappers[n]
  {
    Pool(pool.wrappers - {name}, DropHolders(pool.holders, name))
  }

  lemma DropHoldersOf<P>(holders: map<P, string>, name: string, n: string)
    ensures HoldersOf(DropHolders(holders, name), n) == if n == name then {} else HoldersOf(holders, n)
  {
  }

  lemma {:induction false} RegisterContextKeepsAccount<P>(pool: Pool<P>, name: string, wrapper: ContextWrapper, ceiling: int)
    requires Accounted(pool, ceiling)
    requires wrapper.pagePermits == ceiling && ceiling >= 0
    ensures Accounted(RegisterContext(pool, name, wrapper), ceiling)
  {
    var r := RegisterContext(pool, name, wrapper);
    forall n | n in r.wrappers
      ensures 0 <= r.wrappers[n].pagePermits && r.wrappers[n].pagePermits + |HoldersOf(r.holders, n)| == ceiling
    {
      DropHoldersOf(pool.holders, name, n);
    }
  }

  lemma {:induction false} OpenPageKeepsAccount<P>(pool: Pool<P>, name: string, p: P, ceiling: int)
    requires Accounted(pool, ceiling)
    requires name in pool.wrappers && pool.wrappers[name].pagePermits > 0
    requires p !in pool.holders
    ensures Accounted(OpenPage(pool, name, p), ceiling)
  {
    var r := OpenPage(pool, name, p);
    forall n | n in r.wrappers
      ensures 0 <= r.wrappers[n].pagePermits && r.wrappers[n].pagePermits + |HoldersOf(r.holders, n)| == ceiling
    {
      HoldersOfAdded(pool.holders, p, name, n);
    }
  }

  lemma HoldersOfAdded<P>(holders: map<P, string>, p: P, name: string, n: string)
    requires p !in holders
    ensures HoldersOf(holders[p := name], n) == if n == name then HoldersOf(holders, n) + {p} else HoldersOf(holders, n)
    ensures n == name ==> p !in HoldersOf(holders, n)
  {
  }

  lemma {:induction false} ReleasePageOnceKeepsAccount<P>(pool: Pool<P>, p: P, ceiling: int)
    requires Accounted(pool, ceiling)
    ensures Accounted(ReleasePageOnce(pool, p), ceiling)
  {
    if p in pool.holders {
      var r := ReleasePageOnce(pool, p);
      var owner := pool.holders[p];
      forall n | n in r.wrappers
        ensures 0 <= r.wrappers[n].pagePermits && r.wrappers[n].pagePermits + |HoldersOf(r.holders, n)| == ceiling
      {
        HoldersOfRemoved(pool.holders, p, n);
      }
    }
  }

  lemma HoldersOfRemoved<P>(holders: map<P, string>, p: P, n: string)
    requires p in holders
    ensures HoldersOf(holders - {p}, n) == if n == holders[p] then HoldersOf(holders, n) - {p} else HoldersOf(holders, n)
    ensures n == holders[p] ==> p in HoldersOf(holders, n)
  {
  }

  lemma {:induction false} CloseContextKeepsAccount<P>(pool: Pool<P>, name: string, ceiling: int)
    requires Accounted(pool, ceiling)
    ensures Accounted(CloseContext(pool, name), ceiling)
  {
    var r := CloseContext(pool, name);
    forall n | n in r.wrappers
      ensures 0 <= r.wrappers[n].pagePermits && r.wrappers[n].pagePermits + |HoldersOf(r.holders, n)| == ceiling
    {
      DropHoldersOf(pool.holders, name, n);
    }
  }

  /** Under the accounting, no context ever has more free page permits than
      its ceiling, nor fewer than none. */
  lemma {:induction false} AccountedWithinCeiling<P>(pool: Pool<P>, ceiling: int, name: string)
    requires Accounted(pool, ceiling)
    requires name in pool.wrappers
    ensures 0 <= pool.wrappers[name].pagePermits <= ceiling
  {
  }

  /** A page that closes without having been used gives back exactly the
      permit it took: the pool is as it was before the page was opened. */
  lemma OpenThenReleaseRestores<P>(pool: Pool<P>, name: string, p: P)
    requires name in pool.wrappers && pool.wrappers[name].pagePermits > 0
    requires p !in pool.holders
    ensures ReleasePageOnce(OpenPage(pool, name, p), p) == pool
  {
    var withPage := OpenPage(pool, name, p);
    assert withPage.holders - {p} == pool.holders;
    assert ReleaseByName(withPage.wrappers, name) == pool.wrappers;
  }

  /** A second close or crash event of the same page changes nothing. */
  lemma ReleasePageOnceIdempotent<P>(pool: Pool<P>, p: P)
    ensures ReleasePageOnce(ReleasePageOnce(pool, p), p) == ReleasePageOnce(pool, p)
  {
  }

  /** With release once per page, the crash-then-close sequence of
      `CrashThenCloseExceedsCeiling` returns the context to its ceiling. */
  lemma CrashThenCloseRestoresCeiling<P>(ceiling: nat, context: nat, p: P)
    requires ceiling > 0
    ensures var start: Pool<P> := Pool(map["default" := ContextWrapper(context, false, ceiling)], map[]);
            var withPage := OpenPage(start, "default", p);
            ReleasePageOnce(ReleasePageOnce(withPage, p), p).wrappers["default"].pagePermits == ceiling
  {
  }
}
