/**
 any_completion_handler: a wrapper is two pointers, to a function table and to
 a heap-allocated implementation. Wrappers and implementations are named by
 their addresses, so that two operands may be the same object.
 */
module Handler {
  import opened Text

  type Address = nat
  type Impl = nat
  /** The handler type that a function table and an implementation are instantiated for. */
  type HandlerType = nat

  datatype Wrapper = Wrapper(table: Option<HandlerType>, impl: Option<Impl>)

  const EMPTY := Wrapper(None, None)

  /** What happens to implementations, in order. */
  datatype Event = Destroyed(impl: Impl) | Invoked(impl: Impl)

  datatype Heap = Heap(wrappers: map<Address, Wrapper>, impls: map<Impl, HandlerType>, log: seq<Event>)

  datatype Op =
    | Construct(w: Address, impl: Impl, handler: HandlerType)
    | ConstructEmpty(w: Address)
    | MoveConstruct(w: Address, other: Address)
    | MoveAssign(w: Address, other: Address)
    | NullAssign(w: Address)
    | Swap(w: Address, other: Address)
    | Call(w: Address)
    | Destroy(w: Address)

  predicate Enabled(h: Heap, op: Op) {
    match op
    case Construct(w, impl, _) => w !in h.wrappers && impl !in h.impls
    case ConstructEmpty(w) => w !in h.wrappers
    case MoveConstruct(w, other) => w !in h.wrappers && other in h.wrappers
    case MoveAssign(w, other) => w in h.wrappers && other in h.wrappers
    case NullAssign(w) => w in h.wrappers
    case Swap(w, other) => w in h.wrappers && other in h.wrappers
    case Call(w) => w in h.wrappers
    case Destroy(w) => w in h.wrappers
  }

  /** Destroying what a wrapper owns, if anything. */
  function Released(h: Heap, w: Wrapper): seq<Event> {
    if w.impl.Some? then [Destroyed(w.impl.value)] else []
  }

  /** What each operation means, without temporaries. */
  function Apply(h: Heap, op: Op): Heap
    requires Enabled(h, op)
  {
    match op
    case Construct(w, impl, handler) =>
      h.(wrappers := h.wrappers[w := Wrapper(Some(handler), Some(impl))], impls := h.impls[impl := handler])
    case ConstructEmpty(w) => h.(wrappers := h.wrappers[w := EMPTY])
    case MoveConstruct(w, other) => h.(wrappers := h.wrappers[w := h.wrappers[other]][other := EMPTY])
    case MoveAssign(w, other) =>
      if w == other then h
      else
        h.(wrappers := h.wrappers[w := h.wrappers[other]][other := EMPTY], log := h.log + Released(h, h.wrappers[w]))
    case NullAssign(w) => h.(wrappers := h.wrappers[w := EMPTY], log := h.log + Released(h, h.wrappers[w]))
    case Swap(w, other) => h.(wrappers := h.wrappers[w := h.wrappers[other]][other := h.wrappers[w]])
    case Call(w) =>
      var impl := h.wrappers[w].impl;
      if impl.None? then h // throws bad_function_call
      else
        h.(wrappers := h.wrappers[w := h.wrappers[w].(impl := None)],
           log := h.log + [Destroyed(impl.value), Invoked(impl.value)])
    case Destroy(w) => h.(wrappers := h.wrappers - {w}, log := h.log + Released(h, h.wrappers[w]))
  }

  // ---------------------------------------------------------------- invariant

  predicate Owns(h: Heap, w: Address, i: Impl) {
    w in h.wrappers && h.wrappers[w].impl == Some(i)
  }

  ghost predicate Owned(h: Heap, i: Impl) {
    exists w :: Owns(h, w, i)
  }

  /** A wrapper's function table is the one for what it points to. */
  predicate TypesMatch(h: Heap) {
    forall w <- h.wrappers :: h.wrappers[w].impl.Some? ==>
      h.wrappers[w].impl.value in h.impls && h.wrappers[w].table == Some(h.impls[h.wrappers[w].impl.value])
  }

  ghost predicate SingleOwner(h: Heap) {
    forall v: Address, w: Address, i: Impl :: Owns(h, v, i) && Owns(h, w, i) ==> v == w
  }

  predicate Happened(h: Heap, e: Event) { e in h.log }

  /** An implementation is owned until it is destroyed. */
  ghost predicate DestroyedWhenOrphaned(h: Heap) {
    forall i :: Happened(h, Destroyed(i)) <==> i in h.impls && !Owned(h, i)
  }

  /** Nothing happens twice, and a handler is invoked right after its memory was released. */
  predicate LogOk(log: seq<Event>) {
    && (forall j, k :: 0 <= j < k < |log| ==> log[j] != log[k])
    && (forall k :: 0 <= k < |log| && log[k].Invoked? ==> k > 0 && log[k - 1] == Destroyed(log[k].impl))
  }

  ghost predicate Inv(h: Heap) {
    TypesMatch(h) && SingleOwner(h) && DestroyedWhenOrphaned(h) && LogOk(h.log)
  }

  predicate Init(h: Heap) { h == Heap(map[], map[], []) }

  // ------------------------------------------------------------- preservation

  /** The same implementations under other addresses. */
  ghost predicate SameOwned(h: Heap, g: Heap) {
    forall i :: Owned(h, i) <==> Owned(g, i)
  }

  lemma InvokedThenDestroyed(log: seq<Event>, i: Impl)
    requires LogOk(log)
    ensures Invoked(i) in log ==> Destroyed(i) in log
  {
    if Invoked(i) in log {
      var k :| 0 <= k < |log| && log[k] == Invoked(i);
      assert log[k - 1] in log;
    }
  }

  lemma LogAppend(log: seq<Event>, i: Impl)
    requires LogOk(log) && Destroyed(i) !in log
    ensures LogOk(log + [Destroyed(i)]) && LogOk(log + [Destroyed(i), Invoked(i)])
  {
    InvokedThenDestroyed(log, i);
    assert forall k :: 0 <= k < |log| ==> log[k] in log;
  }

  /** Removing an owner and destroying what it owned. */
  lemma OrphanKeepsInv(h: Heap, g: Heap, w: Address, invoked: bool)
    requires Inv(h) && w in h.wrappers && h.wrappers[w].impl.Some?
    requires g.impls == h.impls
    requires var i := h.wrappers[w].impl.value;
             g.log == h.log + if invoked then [Destroyed(i), Invoked(i)] else [Destroyed(i)]
    requires TypesMatch(g) && SingleOwner(g)
    requires forall j :: Owned(g, j) <==> Owned(h, j) && j != h.wrappers[w].impl.value
    ensures Inv(g)
  {
    var i := h.wrappers[w].impl.value;
    assert Owns(h, w, i);
    assert !Happened(h, Destroyed(i));
    LogAppend(h.log, i);
    forall j: Impl
      ensures Happened(g, Destroyed(j)) <==> Happened(h, Destroyed(j)) || j == i
    {
    }
  }

  lemma ConstructKeepsInv(h: Heap, op: Op)
    requires Inv(h) && Enabled(h, op) && op.Construct?
    ensures Inv(Apply(h, op))
  {
    var g := Apply(h, op);
    forall v: Address, i: Impl | Owns(g, v, i)
      ensures (v == op.w && i == op.impl) || (v != op.w && Owns(h, v, i) && i != op.impl)
    {
    }
    assert Owns(g, op.w, op.impl);
    forall i: Impl
      ensures Owned(g, i) <==> Owned(h, i) || i == op.impl
    {
      if Owned(h, i) {
        var v: Address :| Owns(h, v, i);
        assert Owns(g, v, i);
      }
    }
  }

  lemma EmptyKeepsInv(h: Heap, w: Address)
    requires Inv(h) && Enabled(h, ConstructEmpty(w))
    ensures Inv(Apply(h, ConstructEmpty(w)))
  {
    var g := Apply(h, ConstructEmpty(w));
    assert forall v: Address, i: Impl :: Owns(g, v, i) <==> Owns(h, v, i);
    SameOwnersSameInv(h, g);
  }

  /** The address that owns after a move what v owned before. */
  function MovedTo(op: Op, v: Address): Address
    requires op.MoveConstruct? || op.Swap?
  {
    if v == op.other then op.w else if v == op.w then op.other else v
  }

  lemma OwnersMoved(h: Heap, op: Op)
    requires Inv(h) && Enabled(h, op) && (op.MoveConstruct? || op.Swap?)
    ensures TypesMatch(Apply(h, op))
    ensures forall v: Address, i: Impl :: Owns(h, v, i) ==> Owns(Apply(h, op), MovedTo(op, v), i)
    ensures forall v: Address, i: Impl :: Owns(Apply(h, op), v, i) ==> Owns(h, MovedTo(op, v), i)
  {
  }

  /** The invariant depends only on who owns what, up to a change of addresses. */
  lemma SameOwnersSameInv(h: Heap, g: Heap)
    requires Inv(h) && g.impls == h.impls && g.log == h.log && TypesMatch(g)
    requires SingleOwner(g) && SameOwned(h, g)
    ensures Inv(g)
  {
  }

  /** Operations that only move ownership around: every impl that had an owner has one, under one address. */
  lemma MoveKeepsInv(h: Heap, op: Op)
    requires Inv(h) && Enabled(h, op) && (op.MoveConstruct? || op.Swap?)
    ensures Inv(Apply(h, op)) && SameOwned(h, Apply(h, op))
  {
    var g := Apply(h, op);
    OwnersMoved(h, op);
    forall i: Impl
      ensures Owned(h, i) <==> Owned(g, i)
    {
      if Owned(h, i) {
        var v: Address :| Owns(h, v, i);
        assert Owns(g, MovedTo(op, v), i);
      }
      if Owned(g, i) {
        var v: Address :| Owns(g, v, i);
        assert Owns(h, MovedTo(op, v), i);
      }
    }
    forall v: Address, w: Address, i: Impl | Owns(g, v, i) && Owns(g, w, i)
      ensures v == w
    {
      assert Owns(h, MovedTo(op, v), i) && Owns(h, MovedTo(op, w), i);
    }
    SameOwnersSameInv(h, g);
  }

  lemma DestroyKeepsInv(h: Heap, op: Op)
    requires Inv(h) && Enabled(h, op) && (op.Destroy? || op.NullAssign? || op.Call?)
    ensures Inv(Apply(h, op))
  {
    var g := Apply(h, op);
    forall v: Address, i: Impl | Owns(g, v, i)
      ensures v != op.w && Owns(h, v, i)
    {
    }
    forall v: Address, i: Impl | Owns(h, v, i) && v != op.w
      ensures Owns(g, v, i)
    {
    }
    forall j: Impl
      ensures Owned(g, j) <==> Owned(h, j) && Some(j) != h.wrappers[op.w].impl
    {
      if Owned(h, j) && Some(j) != h.wrappers[op.w].impl {
        var v: Address :| Owns(h, v, j);
        assert Owns(g, v, j);
      }
      if Owned(g, j) {
        var v: Address :| Owns(g, v, j);
        assert Owns(h, v, j) && !Owns(h, op.w, j);
      }
    }
    if h.wrappers[op.w].impl.Some? {
      OrphanKeepsInv(h, g, op.w, op.Call?);
    } else {
      assert h.log + [] == h.log;
      assert SameOwned(h, g);
    }
  }

  /** Move-assignment is a destruction followed by a move. */
  lemma MoveAssignIsNullThenSwap(h: Heap, w: Address, other: Address)
    requires Enabled(h, MoveAssign(w, other)) && w != other
    ensures Enabled(h, NullAssign(w)) && Enabled(Apply(h, NullAssign(w)), Swap(w, other))
    ensures Apply(h, MoveAssign(w, other)) == Apply(Apply(h, NullAssign(w)), Swap(w, other))
  {
  }

  lemma OpKeepsInv(h: Heap, op: Op)
    requires Inv(h) && Enabled(h, op)
    ensures Inv(Apply(h, op))
  {
    match op
    case Construct(_, _, _) => ConstructKeepsInv(h, op);
    case ConstructEmpty(w) => EmptyKeepsInv(h, w);
    case MoveConstruct(_, _) => MoveKeepsInv(h, op);
    case Swap(_, _) => MoveKeepsInv(h, op);
    case MoveAssign(w, other) =>
      if w != other {
        MoveAssignIsNullThenSwap(h, w, other);
        DestroyKeepsInv(h, NullAssign(w));
        MoveKeepsInv(Apply(h, NullAssign(w)), Swap(w, other));
      }
    case NullAssign(_) => DestroyKeepsInv(h, op);
    case Call(_) => DestroyKeepsInv(h, op);
    case Destroy(_) => DestroyKeepsInv(h, op);
  }

  // --------------------------------------------------------------- every run

  predicate ValidRun(h: Heap, ops: seq<Op>)
    decreases |ops|
  {
    ops == [] || (Enabled(h, ops[0]) && ValidRun(Apply(h, ops[0]), ops[1..]))
  }

  function Run(h: Heap, ops: seq<Op>): Heap
    requires ValidRun(h, ops)
    decreases |ops|
  {
    if ops == [] then h else Run(Apply(h, ops[0]), ops[1..])
  }

  lemma {:induction false} RunKeepsInv(h: Heap, ops: seq<Op>)
    requires Inv(h) && ValidRun(h, ops)
    ensures Inv(Run(h, ops))
    decreases |ops|
  {
    if ops != [] {
      OpKeepsInv(h, ops[0]);
      RunKeepsInv(Apply(h, ops[0]), ops[1..]);
    }
  }

  /** How often something happened. */
  function Times(log: seq<Event>, e: Event): nat { multiset(log)[e] }

  lemma {:induction false} TimesInDistinct(log: seq<Event>, e: Event)
    requires forall j, k :: 0 <= j < k < |log| ==> log[j] != log[k]
    ensures Times(log, e) == if e in log then 1 else 0
  {
    if log != [] {
      var init, last := log[..|log| - 1], log[|log| - 1];
      assert log == init + [last];
      TimesInDistinct(init, e);
      assert e in log <==> e in init || e == last;
      assert last !in init;
    }
  }

  /**
   Over any sequence of operations on any wrappers: an implementation has at most
   one owner, of the right type; it is invoked at most once, right after its memory
   was released; and it is destroyed once if it has lost its owner, else not at all.
   */
  lemma EachImplOnce(ops: seq<Op>, i: Impl)
    requires ValidRun(Heap(map[], map[], []), ops)
    ensures var h := Run(Heap(map[], map[], []), ops);
            && (forall v, w :: Owns(h, v, i) && Owns(h, w, i) ==> v == w)
            && (forall w :: Owns(h, w, i) ==> i in h.impls && h.wrappers[w].table == Some(h.impls[i]))
            && (i in h.impls ==> Times(h.log, Destroyed(i)) == if Owned(h, i) then 0 else 1)
            && (i !in h.impls ==> Times(h.log, Destroyed(i)) == 0)
            && Times(h.log, Invoked(i)) <= Times(h.log, Destroyed(i))
  {
    var h := Run(Heap(map[], map[], []), ops);
    RunKeepsInv(Heap(map[], map[], []), ops);
    TimesInDistinct(h.log, Destroyed(i));
    TimesInDistinct(h.log, Invoked(i));
    assert Happened(h, Destroyed(i)) <==> i in h.impls && !Owned(h, i);
    if Invoked(i) in h.log {
      var k :| 0 <= k < |h.log| && h.log[k] == Invoked(i);
      assert h.log[k - 1] in h.log;
    }
  }

  /** When no wrapper remains, every implementation ever created has been destroyed exactly once. */
  lemma NothingLeaks(ops: seq<Op>, i: Impl)
    requires ValidRun(Heap(map[], map[], []), ops)
    requires Run(Heap(map[], map[], []), ops).wrappers == map[]
    ensures var h := Run(Heap(map[], map[], []), ops);
            i in h.impls ==> Times(h.log, Destroyed(i)) == 1
  {
    EachImplOnce(ops, i);
  }

  // -------------------------------------------------- what the operations are for

  const NOTHING := Heap(map[], map[], [])

  lemma {:induction false} RunAppend(h: Heap, ops: seq<Op>, j: nat)
    requires ValidRun(h, ops) && j < |ops|
    ensures ValidRun(h, ops[..j]) && Enabled(Run(h, ops[..j]), ops[j])
    ensures ValidRun(h, ops[..j + 1]) && Run(h, ops[..j + 1]) == Apply(Run(h, ops[..j]), ops[j])
    decreases j
  {
    if j > 0 {
      RunAppend(Apply(h, ops[0]), ops[1..], j - 1);
      assert ops[..j][1..] == ops[1..][..j - 1] && ops[..j + 1][1..] == ops[1..][..j];
    } else {
      assert ops[..1][1..] == [];
    }
  }

  /** One operation invokes a handler exactly when it is a call of the wrapper that owns it. */
  lemma OpInvokes(h: Heap, op: Op, i: Impl)
    requires Enabled(h, op)
    ensures Happened(Apply(h, op), Invoked(i)) <==> Happened(h, Invoked(i)) || (op.Call? && Owns(h, op.w, i))
  {
  }

  /** Operation j calls the wrapper that owns i. */
  predicate CallsAt(ops: seq<Op>, j: nat, i: Impl)
    requires ValidRun(NOTHING, ops) && j < |ops|
  {
    RunAppend(NOTHING, ops, j);
    ops[j].Call? && Owns(Run(NOTHING, ops[..j]), ops[j].w, i)
  }

  lemma {:induction false} InvokedUpTo(ops: seq<Op>, i: Impl, n: nat)
    requires ValidRun(NOTHING, ops) && n <= |ops|
    ensures ValidRun(NOTHING, ops[..n])
    ensures Happened(Run(NOTHING, ops[..n]), Invoked(i)) <==> exists j: nat :: j < n && CallsAt(ops, j, i)
    decreases n
  {
    if n > 0 {
      RunAppend(NOTHING, ops, n - 1);
      InvokedUpTo(ops, i, n - 1);
      OpInvokes(Run(NOTHING, ops[..n - 1]), ops[n - 1], i);
      assert CallsAt(ops, n - 1, i) <==> ops[n - 1].Call? && Owns(Run(NOTHING, ops[..n - 1]), ops[n - 1].w, i);
    }
  }

  /** A handler has been invoked, once, exactly if some wrapper was called while it owned it. */
  lemma InvokedIff(ops: seq<Op>, i: Impl)
    requires ValidRun(NOTHING, ops)
    ensures Times(Run(NOTHING, ops).log, Invoked(i)) == if exists j: nat :: j < |ops| && CallsAt(ops, j, i) then 1 else 0
  {
    InvokedUpTo(ops, i, |ops|);
    assert ops[..|ops|] == ops;
    RunKeepsInv(NOTHING, ops);
    TimesInDistinct(Run(NOTHING, ops).log, Invoked(i));
  }

  /** What a wrapper owns, if it is one and owns anything. */
  function Content(h: Heap, w: Address): Option<Impl> {
    if w in h.wrappers then h.wrappers[w].impl else None
  }

  /** Nothing but these two addresses is concerned. */
  predicate OthersKept(h: Heap, g: Heap, a: Address, b: Address) {
    g.wrappers - {a, b} == h.wrappers - {a, b}
  }

  /** Moving hands over what the source owns and leaves it empty, whether or not the target existed. */
  lemma MoveHandsOver(h: Heap, w: Address, other: Address)
    requires Enabled(h, MoveConstruct(w, other)) || (Enabled(h, MoveAssign(w, other)) && w != other)
    ensures var g := Apply(h, if w in h.wrappers then MoveAssign(w, other) else MoveConstruct(w, other));
            && w in g.wrappers && other in g.wrappers
            && Content(g, w) == Content(h, other) && Content(g, other) == None
            && OthersKept(h, g, w, other)
            && g.log == h.log + (if Content(h, w).Some? then [Destroyed(Content(h, w).value)] else [])
  {
  }

  /** Assigning a wrapper to itself changes nothing. */
  lemma SelfMoveKeeps(h: Heap, w: Address)
    requires w in h.wrappers
    ensures Apply(h, MoveAssign(w, w)) == h
  {
  }

  /** Swapping exchanges what the two own, destroys nothing, and done twice is nothing. */
  lemma SwapExchanges(h: Heap, w: Address, other: Address)
    requires Enabled(h, Swap(w, other))
    ensures var g := Apply(h, Swap(w, other));
            && Content(g, w) == Content(h, other) && Content(g, other) == Content(h, w) && OthersKept(h, g, w, other)
            && w in g.wrappers && other in g.wrappers && g.log == h.log
            && Apply(g, Swap(w, other)) == h
  {
    var g := Apply(h, Swap(w, other));
    assert Apply(g, Swap(w, other)).wrappers == h.wrappers;
  }

  /** A new wrapper owns the new implementation, or nothing. */
  lemma ConstructOwns(h: Heap, w: Address, impl: Impl, handler: HandlerType)
    requires w !in h.wrappers && impl !in h.impls
    ensures var g := Apply(h, Construct(w, impl, handler));
            w in g.wrappers && Content(g, w) == Some(impl) && impl in g.impls && g.impls[impl] == handler
            && OthersKept(h, g, w, w) && g.log == h.log
    ensures var g := Apply(h, ConstructEmpty(w));
            w in g.wrappers && Content(g, w) == None && OthersKept(h, g, w, w) && g.log == h.log && g.impls == h.impls
  {
  }

  /** Resetting, calling and destroying empty a wrapper; only the last makes it go away, only the second runs the handler. */
  lemma EmptiedBy(h: Heap, w: Address)
    requires w in h.wrappers
    ensures var g := Apply(h, NullAssign(w));
            w in g.wrappers && Content(g, w) == None && OthersKept(h, g, w, w)
            && g.log == h.log + (if Content(h, w).Some? then [Destroyed(Content(h, w).value)] else [])
    ensures var g := Apply(h, Call(w));
            w in g.wrappers && Content(g, w) == None && g.wrappers[w].table == h.wrappers[w].table && OthersKept(h, g, w, w)
            && g.log == h.log + (if Content(h, w).Some?
                                 then [Destroyed(Content(h, w).value), Invoked(Content(h, w).value)] else [])
    ensures var g := Apply(h, Destroy(w));
            w !in g.wrappers && OthersKept(h, g, w, w)
            && g.log == h.log + (if Content(h, w).Some? then [Destroyed(Content(h, w).value)] else [])
  {
  }

  // ---------------------------------------------------------------- the class

  /** The operations as the header writes them: pointer by pointer, with swap and temporaries. */
  class Handlers {
    var wrappers: map<Address, Wrapper>
    var impls: map<Impl, HandlerType>
    var log: seq<Event>

    ghost function Value(): Heap
      reads this
    {
      Heap(wrappers, impls, log)
    }

    constructor ()
      ensures Init(Value())
    {
      wrappers, impls, log := map[], map[], [];
    }

    method ConstructFrom(w: Address, impl: Impl, handler: HandlerType)
      requires Enabled(Value(), Construct(w, impl, handler))
      modifies this
      ensures Value() == Apply(old(Value()), Construct(w, impl, handler))
    {
      impls := impls[impl := handler];
      wrappers := wrappers[w := Wrapper(Some(handler), Some(impl))];
    }

    method ConstructNull(w: Address)
      requires Enabled(Value(), ConstructEmpty(w))
      modifies this
      ensures Value() == Apply(old(Value()), ConstructEmpty(w))
    {
      wrappers := wrappers[w := EMPTY];
    }

    method MoveFrom(w: Address, other: Address)
      requires Enabled(Value(), MoveConstruct(w, other))
      modifies this
      ensures Value() == Apply(old(Value()), MoveConstruct(w, other))
    {
      wrappers := wrappers[w := Wrapper(wrappers[other].table, wrappers[other].impl)];
      wrappers := wrappers[other := wrappers[other].(table := None)];
      wrappers := wrappers[other := wrappers[other].(impl := None)];
    }

    method SwapWith(w: Address, other: Address)
      requires Enabled(Value(), Swap(w, other))
      modifies this
      ensures Value() == Apply(old(Value()), Swap(w, other))
    {
      var table, impl := wrappers[w].table, wrappers[w].impl;
      wrappers := wrappers[w := wrappers[w].(table := wrappers[other].table)];
      wrappers := wrappers[other := wrappers[other].(table := table)];
      wrappers := wrappers[w := wrappers[w].(impl := wrappers[other].impl)];
      wrappers := wrappers[other := wrappers[other].(impl := impl)];
    }

    /** The destructor: needs the function table only if there is an implementation. */
    method Drop(w: Address)
      requires Enabled(Value(), Destroy(w))
      modifies this
      ensures Value() == Apply(old(Value()), Destroy(w))
    {
      var impl := wrappers[w].impl;
      if impl.Some? {
        log := log + [Destroyed(impl.value)];
      }
      wrappers := wrappers - {w};
    }

    /** A temporary takes over `other`, is swapped with the target, and is destroyed. */
    method Assign(w: Address, other: Address, temporary: Address)
      requires Enabled(Value(), MoveAssign(w, other)) && temporary !in wrappers
      modifies this
      ensures Value() == Apply(old(Value()), MoveAssign(w, other))
    {
      MoveFrom(temporary, other);
      SwapWith(temporary, w);
      Drop(temporary);
      assert wrappers == Apply(old(Value()), MoveAssign(w, other)).wrappers;
    }

    method AssignNull(w: Address, temporary: Address)
      requires Enabled(Value(), NullAssign(w)) && temporary !in wrappers
      modifies this
      ensures Value() == Apply(old(Value()), NullAssign(w))
    {
      ConstructNull(temporary);
      SwapWith(temporary, w);
      Drop(temporary);
      assert wrappers == Apply(old(Value()), NullAssign(w)).wrappers;
    }

    /** operator(): the wrapper lets go first; the implementation is freed before the handler runs. */
    method Invoke(w: Address) returns (threw: bool)
      requires Enabled(Value(), Call(w))
      modifies this
      ensures Value() == Apply(old(Value()), Call(w))
      ensures threw <==> old(wrappers)[w].impl.None?
    {
      var impl := wrappers[w].impl;
      if impl.None? {
        return true;
      }
      wrappers := wrappers[w := wrappers[w].(impl := None)];
      log := log + [Destroyed(impl.value)];
      log := log + [Invoked(impl.value)];
      return false;
    }
  }
}
