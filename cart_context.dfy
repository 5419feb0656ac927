/** The cart orchestrator: each public operation dispatches an optimistic
    action, marks the cart as loading, awaits a server confirmation and
    then settles, rolling back through UNDO when the confirmation fails.
    The confirmation's outcome is a parameter; storage is a field holding
    the last saved state. */
module CartContext {
  import opened CartTypes
  import opened CartReducer
  import opened SeqUtil

  /** The message of the failed confirmation. */
  const NetworkError: string := "Network error. Please try again."

  /** A state worth remembering as the last stable one. */
  predicate IsStable(s: CartState)
  {
    !s.isLoading && |s.errors| == 0
  }

  /** The dispatches made before awaiting the server. */
  function Optimistic(a: CartAction): seq<CartAction>
  {
    [a, SetLoading(true)]
  }

  /** The dispatches made once the server answered; `rollback` says
      whether a failure is undone. */
  function Settle(confirmed: bool, rollback: bool): seq<CartAction>
  {
    if confirmed then [SetLoading(false)]
    else if rollback then [SetLoading(false), SetErrors([NetworkError]), Undo]
    else [SetLoading(false), SetErrors([NetworkError])]
  }

  function AddToCartActions(item: CartItem, confirmed: bool): seq<CartAction>
  {
    Optimistic(AddItem(item)) + Settle(confirmed, true)
  }

  function RemoveItemActions(id: string, confirmed: bool): seq<CartAction>
  {
    Optimistic(RemoveItem(id)) + Settle(confirmed, true)
  }

  function UpdateQuantityActions(id: string, quantity: int, confirmed: bool): seq<CartAction>
  {
    Optimistic(UpdateQuantity(id, quantity)) + Settle(confirmed, true)
  }

  function ApplyDiscountActions(code: string, confirmed: bool): seq<CartAction>
  {
    Optimistic(ApplyDiscount(code)) + Settle(confirmed, false)
  }

  /** The optimistic phase: the action's result, marked as loading. */
  lemma OptimisticRun(s: CartState, a: CartAction)
    ensures Run(s, Optimistic(a)) == Step(s, a).(isLoading := true)
  {
    RunTwo(s, a, SetLoading(true));
  }

  lemma RunOne(s: CartState, a: CartAction)
    ensures Run(s, [a]) == Step(s, a)
  {
    assert [a][1..] == [];
  }

  lemma RunTwo(s: CartState, a: CartAction, b: CartAction)
    ensures Run(s, [a, b]) == Step(Step(s, a), b)
  {
    assert [a, b][1..] == [b];
    RunOne(Step(s, a), b);
  }

  lemma RunThree(s: CartState, a: CartAction, b: CartAction, c: CartAction)
    ensures Run(s, [a, b, c]) == Step(Step(Step(s, a), b), c)
  {
    assert [a, b, c][1..] == [b, c];
    RunTwo(Step(s, a), b, c);
  }

  /** The settling phase on the state `t` reached by the optimistic phase. */
  lemma SettleRun(t: CartState, confirmed: bool, rollback: bool)
    ensures Run(t, Settle(confirmed, rollback)) ==
      if confirmed then t.(isLoading := false)
      else if rollback then Step(t.(isLoading := false, errors := [NetworkError]), Undo)
      else t.(isLoading := false, errors := [NetworkError])
  {
    if confirmed {
      RunOne(t, SetLoading(false));
    } else if rollback {
      RunThree(t, SetLoading(false), SetErrors([NetworkError]), Undo);
    } else {
      RunTwo(t, SetLoading(false), SetErrors([NetworkError]));
    }
  }

  lemma WrapperRun(s: CartState, a: CartAction, confirmed: bool, rollback: bool)
    ensures Run(s, Optimistic(a) + Settle(confirmed, rollback)) ==
      Run(Step(s, a).(isLoading := true), Settle(confirmed, rollback))
  {
    RunAppend(s, Optimistic(a), Settle(confirmed, rollback));
    OptimisticRun(s, a);
  }

  /** A confirmed wrapper ends in the optimistic result, no longer loading. */
  lemma ConfirmedKeepsOptimistic(s: CartState, a: CartAction, rollback: bool)
    ensures Run(s, Optimistic(a) + Settle(true, rollback)) == Step(s, a).(isLoading := false)
  {
    WrapperRun(s, a, true, rollback);
    SettleRun(Step(s, a).(isLoading := true), true, rollback);
  }

  /** A failed `addToCart`, `removeItem`, or `updateQuantity` of at least
      1, ends in exactly the state it started from: UNDO restores the
      pushed snapshot wholesale, so the network error recorded just before
      it and the loading flag cleared just before it are both replaced by
      the snapshot's own. */
  lemma FailedRollsBack(s: CartState, a: CartAction)
    requires PushesUndo(a)
    ensures Run(s, Optimistic(a) + Settle(false, true)) == s
  {
    WrapperRun(s, a, false, true);
    var t := Step(s, a).(isLoading := true);
    SettleRun(t, false, true);
    UndoRestores(s, a);
  }

  /** The three rolled-back wrappers, each failing, end where they started. */
  lemma FailedWrappersRestore(s: CartState, item: CartItem, id: string, q: int)
    ensures Run(s, AddToCartActions(item, false)) == s
    ensures Run(s, RemoveItemActions(id, false)) == s
    ensures q >= 1 ==> Run(s, UpdateQuantityActions(id, q, false)) == s
  {
    FailedRollsBack(s, AddItem(item));
    FailedRollsBack(s, RemoveItem(id));
    if q >= 1 {
      FailedRollsBack(s, UpdateQuantity(id, q));
    }
  }

  /** A failed `updateQuantity` below 1 made no optimistic snapshot, so its
      UNDO pops the unrelated snapshot on top of the stack; on an empty
      stack the network error stays. */
  lemma FailedUpdateBelowOne(s: CartState, id: string, q: int)
    requires q < 1
    ensures Run(s, UpdateQuantityActions(id, q, false)) ==
      if s.undoStack == [] then s.(isLoading := false, errors := [NetworkError])
      else s.undoStack[0].(undoStack := s.undoStack[1..])
  {
    WrapperRun(s, UpdateQuantity(id, q), false, true);
    SettleRun(s.(isLoading := true), false, true);
  }

  /** A failed `applyDiscount` keeps the new discount and shows the network
      error instead of any discount error. */
  lemma FailedDiscountKept(s: CartState, code: string)
    ensures Run(s, ApplyDiscountActions(code, false)) ==
      Step(s, ApplyDiscount(code)).(isLoading := false, errors := [NetworkError])
  {
    WrapperRun(s, ApplyDiscount(code), false, false);
    SettleRun(Step(s, ApplyDiscount(code)).(isLoading := true), false, false);
  }

  /** Every wrapper ends not loading, on either outcome, when it starts
      from a state that is not loading (and, for a failed `updateQuantity`
      below 1, when the snapshot it pops is not loading either). */
  lemma WrappersSettle(s: CartState, item: CartItem, id: string, q: int, code: string, ok: bool)
    requires !s.isLoading
    requires q < 1 && !ok && s.undoStack != [] ==> !s.undoStack[0].isLoading
    ensures !Run(s, AddToCartActions(item, ok)).isLoading
    ensures !Run(s, RemoveItemActions(id, ok)).isLoading
    ensures !Run(s, UpdateQuantityActions(id, q, ok)).isLoading
    ensures !Run(s, ApplyDiscountActions(code, ok)).isLoading
  {
    if ok {
      ConfirmedKeepsOptimistic(s, AddItem(item), true);
      ConfirmedKeepsOptimistic(s, RemoveItem(id), true);
      ConfirmedKeepsOptimistic(s, UpdateQuantity(id, q), true);
      ConfirmedKeepsOptimistic(s, ApplyDiscount(code), false);
    } else {
      FailedWrappersRestore(s, item, id, q);
      if q < 1 { FailedUpdateBelowOne(s, id, q); }
      FailedDiscountKept(s, code);
    }
  }

  /** A wrapper never loads a snapshot, so it keeps a coherent cart
      coherent: totals match the items, ids are unique, and so for every
      snapshot on the undo stack. */
  lemma WrapperCoherent(s: CartState, a: CartAction, confirmed: bool, rollback: bool)
    requires Coherent(s) && !a.LoadCart?
    ensures Coherent(Run(s, Optimistic(a) + Settle(confirmed, rollback)))
  {
    var acts := Optimistic(a) + Settle(confirmed, rollback);
    assert forall k | 0 <= k < |acts| :: !acts[k].LoadCart?;
    RunCoherent(s, acts);
  }

  /** The orchestrator: the reducer's current state, the state saved in
      storage, and the last stable state. */
  class CartProvider {
    var state: CartState
    var saved: CartState
    var lastStable: CartState

    /** Storage holds the current state, the last stable state is stable,
        and a stable current state is the last stable one. */
    ghost predicate Valid()
      reads this
    {
      && saved == state
      && IsStable(lastStable)
      && (IsStable(state) ==> lastStable == state)
    }

    /** The persistence effect that runs after every committed render:
        save the state, and remember it when it is stable. */
    method Commit()
      modifies this
      ensures state == old(state) && saved == state
      ensures lastStable == if IsStable(state) then state else old(lastStable)
    {
      saved := state;
      if IsStable(state) {
        lastStable := state;
      }
    }

    method Dispatch(a: CartAction)
      modifies this`state
      ensures state == Step(old(state), a)
    {
      state := Step(state, a);
    }

    /** Start-up. `stored` is the snapshot parsed from storage, or `None`
        when the slot was empty or did not parse. The load effect records
        the snapshot as last stable, but the persistence effect of the same
        first render still sees the initial state and overwrites it; the
        snapshot becomes last stable only on the next render, and only if
        it is stable. */
    constructor (stored: Option<CartState>)
      ensures Valid()
      ensures state == if stored.Some? then stored.value else InitialState
      ensures lastStable == if stored.Some? && IsStable(stored.value) then stored.value else InitialState
    {
      state := InitialState;
      saved := InitialState;
      lastStable := InitialState;
      new;
      if stored.Some? {
        lastStable := stored.value;
      }
      Commit();
      if stored.Some? {
        Dispatch(LoadCart(stored.value));
        Commit();
      }
    }

    /** Dispatches the optimistic phase, commits, then settles and commits. */
    method Wrapper(a: CartAction, confirmed: bool, rollback: bool)
      requires Valid()
      modifies this
      ensures Valid()
      ensures state == Run(old(state), Optimistic(a) + Settle(confirmed, rollback))
      ensures lastStable == if IsStable(state) then state else old(lastStable)
      ensures Coherent(old(state)) && !a.LoadCart? ==> Coherent(state)
    {
      if Coherent(state) && !a.LoadCart? {
        WrapperCoherent(state, a, confirmed, rollback);
      }
      ghost var s0 := state;
      Dispatch(a);
      Dispatch(SetLoading(true));
      OptimisticRun(s0, a);
      Commit();
      ghost var t := state;
      Dispatch(SetLoading(false));
      if !confirmed {
        Dispatch(SetErrors([NetworkError]));
        if rollback {
          Dispatch(CartAction.Undo);
        }
      }
      SettleRun(t, confirmed, rollback);
      WrapperRun(s0, a, confirmed, rollback);
      Commit();
    }

    /** `addToCart`. */
    method AddToCart(item: CartItem, confirmed: bool)
      requires Valid()
      modifies this
      ensures Valid()
      ensures state == Run(old(state), AddToCartActions(item, confirmed))
      ensures confirmed ==> state == Step(old(state), AddItem(item)).(isLoading := false)
      ensures !confirmed ==> state == old(state)
      ensures lastStable == if IsStable(state) then state else old(lastStable)
      ensures Coherent(old(state)) ==> Coherent(state)
    {
      ConfirmedKeepsOptimistic(state, AddItem(item), true);
      FailedRollsBack(state, AddItem(item));
      Wrapper(AddItem(item), confirmed, true);
    }

    /** `removeItem`. */
    method RemoveItem(id: string, confirmed: bool)
      requires Valid()
      modifies this
      ensures Valid()
      ensures state == Run(old(state), RemoveItemActions(id, confirmed))
      ensures confirmed ==> state == Step(old(state), CartAction.RemoveItem(id)).(isLoading := false)
      ensures !confirmed ==> state == old(state)
      ensures lastStable == if IsStable(state) then state else old(lastStable)
      ensures Coherent(old(state)) ==> Coherent(state)
    {
      ConfirmedKeepsOptimistic(state, CartAction.RemoveItem(id), true);
      FailedRollsBack(state, CartAction.RemoveItem(id));
      Wrapper(CartAction.RemoveItem(id), confirmed, true);
    }

    /** `updateQuantity`. */
    method UpdateQuantity(id: string, quantity: int, confirmed: bool)
      requires Valid()
      modifies this
      ensures Valid()
      ensures state == Run(old(state), UpdateQuantityActions(id, quantity, confirmed))
      ensures confirmed ==> state == Step(old(state), CartAction.UpdateQuantity(id, quantity)).(isLoading := false)
      ensures !confirmed && quantity >= 1 ==> state == old(state)
      ensures lastStable == if IsStable(state) then state else old(lastStable)
      ensures Coherent(old(state)) ==> Coherent(state)
    {
      ConfirmedKeepsOptimistic(state, CartAction.UpdateQuantity(id, quantity), true);
      if quantity >= 1 {
        FailedRollsBack(state, CartAction.UpdateQuantity(id, quantity));
      }
      Wrapper(CartAction.UpdateQuantity(id, quantity), confirmed, true);
    }

    /** `applyDiscount`: a failure keeps the discount and is not undone. */
    method ApplyDiscount(code: string, confirmed: bool)
      requires Valid()
      modifies this
      ensures Valid()
      ensures state == Run(old(state), ApplyDiscountActions(code, confirmed))
      ensures confirmed ==> state == Step(old(state), CartAction.ApplyDiscount(code)).(isLoading := false)
      ensures !confirmed ==> state == Step(old(state), CartAction.ApplyDiscount(code)).(isLoading := false, errors := [NetworkError])
      ensures lastStable == if IsStable(state) then state else old(lastStable)
      ensures Coherent(old(state)) ==> Coherent(state)
    {
      ConfirmedKeepsOptimistic(state, CartAction.ApplyDiscount(code), false);
      FailedDiscountKept(state, code);
      Wrapper(CartAction.ApplyDiscount(code), confirmed, false);
    }

    /** `undo`: one UNDO, with no confirmation. */
    method Undo()
      requires Valid()
      modifies this
      ensures Valid()
      ensures state == Step(old(state), CartAction.Undo)
      ensures lastStable == if IsStable(state) then state else old(lastStable)
      ensures Coherent(old(state)) ==> Coherent(state)
    {
      if Coherent(state) {
        StepCoherent(state, CartAction.Undo);
      }
      Dispatch(CartAction.Undo);
      Commit();
    }
  }
}
