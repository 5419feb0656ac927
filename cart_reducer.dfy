/** The cart reducer: a pure transition from a state and an action to the
    next state, with the derived totals, the discount rules and the
    snapshot undo stack. */
module CartReducer {
  import opened CartTypes
  import opened SeqUtil
  import opened JsString

  /** Flat shipping fee, in cents, charged when the cart is not empty. */
  const ShippingFlat: int := 500
  /** The fixed amount, in cents, that code SAVE10 takes off. */
  const Save10Amount: int := 1000
  const InvalidCodeError: string := "Invalid discount code"

  const InitialState: CartState :=
    CartState([], "", 0, Totals(0, 0, 0, 0), false, [], [])

  function LineTotal(i: CartItem): int
  {
    i.price * i.quantity
  }

  /** The sum of the line totals, accumulated from the left as `reduce` does. */
  function Subtotal(items: seq<CartItem>): int
  {
    if items == [] then 0 else Subtotal(items[..|items| - 1]) + LineTotal(items[|items| - 1])
  }

  /** A 10 % tax on an amount in cents, rounded to the nearest cent. */
  function Tax(subtotal: int): (r: int)
    ensures -5 <= 10 * r - subtotal <= 5
  {
    (subtotal + 5) / 10
  }

  /** Half of an amount in cents, rounded to the nearest cent. */
  function Half(amount: int): (r: int)
    ensures -1 <= 2 * r - amount <= 1
  {
    (amount + 1) / 2
  }

  /** `calcTotals`: the four derived amounts for a list of items and a discount. */
  function CalcTotals(items: seq<CartItem>, discountAmount: int): (t: Totals)
    ensures t.subtotal == Subtotal(items)
    ensures -5 <= 10 * t.tax - t.subtotal <= 5
    ensures t.shipping == if |items| > 0 then ShippingFlat else 0
    ensures t.total >= 0
    ensures t.total >= t.subtotal + t.tax + t.shipping - discountAmount
    ensures t.total == 0 || t.total == t.subtotal + t.tax + t.shipping - discountAmount
  {
    var subtotal := Subtotal(items);
    var tax := Tax(subtotal);
    var shipping := if |items| > 0 then ShippingFlat else 0;
    var due := subtotal + tax + shipping - discountAmount;
    Totals(subtotal, tax, shipping, if due > 0 then due else 0)
  }

  /** The initial state's totals are exactly those of an empty cart without discount. */
  lemma InitialTotals()
    ensures InitialState.totals == CalcTotals([], 0)
    ensures InitialState.undoStack == [] && InitialState.errors == []
  {
  }

  predicate HasId(items: seq<CartItem>, id: string)
  {
    Find(items, (i: CartItem) => i.id == id).Some?
  }

  /** The item list after ADD_ITEM: merged into the item with the same id,
      or appended. */
  function AddToItems(items: seq<CartItem>, p: CartItem): seq<CartItem>
  {
    if HasId(items, p.id) then
      seq(|items|, k requires 0 <= k < |items| =>
        if items[k].id == p.id then items[k].(quantity := items[k].quantity + p.quantity) else items[k])
    else items + [p]
  }

  /** The item list after REMOVE_ITEM. */
  function RemoveFromItems(items: seq<CartItem>, id: string): seq<CartItem>
  {
    Filter(items, (i: CartItem) => i.id != id)
  }

  /** The item list after UPDATE_QUANTITY. */
  function SetQuantity(items: seq<CartItem>, id: string, quantity: int): seq<CartItem>
  {
    seq(|items|, k requires 0 <= k < |items| =>
      if items[k].id == id then items[k].(quantity := quantity) else items[k])
  }

  /** The demo discount rules: the amount in cents and the errors for an
      already trimmed code. */
  function DiscountRule(code: string, items: seq<CartItem>): (int, seq<string>)
  {
    if code == "" then (0, [])
    else if Upper(code) == "SAVE10" then (Save10Amount, [])
    else if Upper(code) == "HALFOFF" then (Half(CalcTotals(items, 0).subtotal), [])
    else (0, [InvalidCodeError])
  }

  /** A structural change: push the prior state, install the new items,
      recompute the totals with the current discount and clear the errors. */
  function Structural(s: CartState, items: seq<CartItem>): CartState
  {
    s.(undoStack := [s] + s.undoStack, items := items,
       totals := CalcTotals(items, s.discountAmount), errors := [])
  }

  /** `cartReducer`. */
  function Step(s: CartState, a: CartAction): CartState
  {
    match a
    case LoadCart(snapshot) => snapshot
    case AddItem(p) => Structural(s, AddToItems(s.items, p))
    case RemoveItem(id) => Structural(s, RemoveFromItems(s.items, id))
    case UpdateQuantity(id, q) =>
      if q < 1 then s else Structural(s, SetQuantity(s.items, id, q))
    case ApplyDiscount(payload) =>
      var code := Trim(payload);
      var (amount, errors) := DiscountRule(code, s.items);
      s.(undoStack := [s] + s.undoStack, discountCode := code, discountAmount := amount,
         totals := CalcTotals(s.items, amount), errors := errors)
    case ClearErrors => s.(errors := [])
    case Undo =>
      if s.undoStack == [] then s else s.undoStack[0].(undoStack := s.undoStack[1..])
    case SetLoading(b) => s.(isLoading := b)
    case SetErrors(errs) => s.(errors := errs)
  }

  /** Dispatches a sequence of actions in order. */
  function Run(s: CartState, acts: seq<CartAction>): CartState
    decreases |acts|
  {
    if acts == [] then s else Run(Step(s, acts[0]), acts[1..])
  }

  lemma {:induction false} RunAppend(s: CartState, xs: seq<CartAction>, ys: seq<CartAction>)
    ensures Run(s, xs + ys) == Run(Run(s, xs), ys)
    decreases |xs|
  {
    if xs != [] {
      assert (xs + ys)[1..] == xs[1..] + ys;
      RunAppend(Step(s, xs[0]), xs[1..], ys);
    } else {
      assert xs + ys == ys;
    }
  }

  // ---------------------------------------------------------------------
  // Totals

  lemma {:induction false} SubtotalAppend(items: seq<CartItem>, x: CartItem)
    ensures Subtotal(items + [x]) == Subtotal(items) + LineTotal(x)
  {
    assert (items + [x])[..|items|] == items;
  }

  /** Replacing one item changes the subtotal by the difference of the two line totals. */
  lemma {:induction false} SubtotalUpdate(items: seq<CartItem>, k: nat, x: CartItem)
    requires k < |items|
    ensures Subtotal(items[k := x]) == Subtotal(items) - LineTotal(items[k]) + LineTotal(x)
    decreases |items|
  {
    var n := |items| - 1;
    var u := items[k := x];
    assert u[..n] == if k == n then items[..n] else items[..n][k := x];
    if k < n {
      SubtotalUpdate(items[..n], k, x);
    }
  }

  /** Adding `more` to an item's quantity adds `more` times its price to
      its line total. */
  lemma MoreOfAnItem(i: CartItem, more: int)
    ensures LineTotal(i.(quantity := i.quantity + more)) == LineTotal(i) + i.price * more
  {
    calc {
      LineTotal(i.(quantity := i.quantity + more));
      i.price * (i.quantity + more);
      { assert i.price * (i.quantity + more) == i.price * i.quantity + i.price * more; }
      LineTotal(i) + i.price * more;
    }
  }

  /** Shipping is charged exactly when the cart holds items, and the total
      is never negative. */
  lemma ShippingAndTotal(items: seq<CartItem>, discountAmount: int)
    ensures CalcTotals(items, discountAmount).shipping == (if items == [] then 0 else 500)
    ensures CalcTotals(items, discountAmount).total >= 0
  {
  }

  // ---------------------------------------------------------------------
  // Item identity

  /** No two items share an id. */
  predicate UniqueIds(items: seq<CartItem>)
  {
    forall i, j | 0 <= i < j < |items| :: items[i].id != items[j].id
  }

  lemma HasIdIff(items: seq<CartItem>, id: string)
    ensures HasId(items, id) <==> exists k | 0 <= k < |items| :: items[k].id == id
  {
  }

  /** ADD_ITEM for an id already present adds the payload quantity to the
      items with that id and to nothing else, keeping length and order. */
  lemma AddExisting(s: CartState, p: CartItem, k: nat)
    requires k < |s.items| && s.items[k].id == p.id
    ensures var r := Step(s, AddItem(p)).items;
      && |r| == |s.items|
      && (forall j | 0 <= j < |r| && s.items[j].id != p.id :: r[j] == s.items[j])
      && (forall j | 0 <= j < |r| && s.items[j].id == p.id ::
            r[j] == s.items[j].(quantity := s.items[j].quantity + p.quantity))
  {
    assert Step(s, AddItem(p)).items == AddToItems(s.items, p);
    assert HasId(s.items, p.id) by {
      HasIdIff(s.items, p.id);
    }
  }

  /** ADD_ITEM for a new id appends the payload unchanged. */
  lemma AddNew(s: CartState, p: CartItem)
    requires forall j | 0 <= j < |s.items| :: s.items[j].id != p.id
    ensures Step(s, AddItem(p)).items == s.items + [p]
  {
    HasIdIff(s.items, p.id);
  }

  /** With unique ids, merging into the item at `k` is a single-element update. */
  lemma {:induction false} MergeIsUpdate(items: seq<CartItem>, p: CartItem, k: nat)
    requires UniqueIds(items)
    requires k < |items| && items[k].id == p.id
    ensures AddToItems(items, p) == items[k := items[k].(quantity := items[k].quantity + p.quantity)]
  {
    HasIdIff(items, p.id);
  }

  /** ADD_ITEM of an id present at `k` raises the subtotal by the added
      quantity times the price already in the cart; the payload's own
      price is ignored. */
  lemma {:induction false} AddMergeSubtotal(items: seq<CartItem>, p: CartItem, k: nat)
    requires UniqueIds(items)
    requires k < |items| && items[k].id == p.id
    ensures Subtotal(AddToItems(items, p)) == Subtotal(items) + items[k].price * p.quantity
  {
    var x := items[k].(quantity := items[k].quantity + p.quantity);
    assert AddToItems(items, p) == items[k := x] by {
      MergeIsUpdate(items, p, k);
    }
    SubtotalUpdate(items, k, x);
    MoreOfAnItem(items[k], p.quantity);
  }

  /** ADD_ITEM of a new id raises the subtotal by the payload's line total. */
  lemma {:induction false} AddNewSubtotal(items: seq<CartItem>, p: CartItem)
    requires forall j | 0 <= j < |items| :: items[j].id != p.id
    ensures Subtotal(AddToItems(items, p)) == Subtotal(items) + p.price * p.quantity
  {
    HasIdIff(items, p.id);
    SubtotalAppend(items, p);
  }

  /** The total quantity held under `id`, summed over all items with that id. */
  function QuantityOf(items: seq<CartItem>, id: string): int
  {
    if items == [] then 0
    else (if items[0].id == id then items[0].quantity else 0) + QuantityOf(items[1..], id)
  }

  lemma {:induction false} QuantityOfAbsent(items: seq<CartItem>, id: string)
    requires forall j | 0 <= j < |items| :: items[j].id != id
    ensures QuantityOf(items, id) == 0
  {
    if items != [] {
      QuantityOfAbsent(items[1..], id);
    }
  }

  /** With unique ids, the quantity under an id is that of its one item. */
  lemma {:induction false} QuantityOfAt(items: seq<CartItem>, k: nat)
    requires UniqueIds(items) && k < |items|
    ensures QuantityOf(items, items[k].id) == items[k].quantity
  {
    var rest := items[1..];
    if k == 0 {
      QuantityOfAbsent(rest, items[0].id);
    } else {
      QuantityOfAt(rest, k - 1);
    }
  }

  /** An item whose id no other item has keeps the ids unique in front. */
  lemma ConsUniqueIds(x: CartItem, t: seq<CartItem>)
    requires UniqueIds(t) && forall y | y in t :: y.id != x.id
    ensures UniqueIds([x] + t)
  {
    var r := [x] + t;
    forall i, j | 0 <= i < j < |r| ensures r[i].id != r[j].id {
      assert r[j] == t[j - 1];
      if i == 0 {
        assert t[j - 1] in t;
      } else {
        assert r[i] == t[i - 1];
      }
    }
  }

  /** Filtering keeps ids unique. */
  lemma {:induction false} FilterUniqueIds(items: seq<CartItem>, p: CartItem -> bool)
    requires UniqueIds(items)
    ensures UniqueIds(Filter(items, p))
  {
    if items != [] {
      var rest := items[1..];
      assert UniqueIds(rest) by {
        forall i, j | 0 <= i < j < |rest| ensures rest[i].id != rest[j].id {
          assert rest[i] == items[i + 1] && rest[j] == items[j + 1];
        }
      }
      FilterUniqueIds(rest, p);
      var fr := Filter(rest, p);
      if p(items[0]) {
        FirstIdFresh(items);
        assert forall y | y in fr :: y in rest;
        ConsUniqueIds(items[0], fr);
      }
    }
  }

  lemma FirstIdFresh(items: seq<CartItem>)
    requires UniqueIds(items) && items != []
    ensures forall x | x in items[1..] :: x.id != items[0].id
  {
    forall x | x in items[1..] ensures x.id != items[0].id {
      var j :| 0 <= j < |items[1..]| && items[1..][j] == x;
      assert items[j + 1] == x;
    }
  }

  /** Merging into the item at `k` keeps ids unique and adds the payload
      quantity under its id. */
  lemma {:induction false} MergeQuantity(items: seq<CartItem>, p: CartItem, k: nat)
    requires UniqueIds(items)
    requires k < |items| && items[k].id == p.id
    ensures UniqueIds(AddToItems(items, p))
    ensures QuantityOf(AddToItems(items, p), p.id) == QuantityOf(items, p.id) + p.quantity
  {
    MergeIsUpdate(items, p, k);
    var r := items[k := items[k].(quantity := items[k].quantity + p.quantity)];
    assert forall j | 0 <= j < |r| :: r[j].id == items[j].id;
    QuantityOfAt(items, k);
    QuantityOfAt(r, k);
  }

  /** Appending an item with a new id keeps ids unique and adds its
      quantity under its id. */
  lemma {:induction false} AppendQuantity(items: seq<CartItem>, p: CartItem)
    requires UniqueIds(items)
    requires forall j | 0 <= j < |items| :: items[j].id != p.id
    ensures UniqueIds(AddToItems(items, p))
    ensures QuantityOf(AddToItems(items, p), p.id) == QuantityOf(items, p.id) + p.quantity
  {
    HasIdIff(items, p.id);
    var r := items + [p];
    assert AddToItems(items, p) == r;
    assert forall j | 0 <= j < |items| :: r[j] == items[j];
    QuantityOfAt(r, |items|);
    QuantityOfAbsent(items, p.id);
  }

  /** ADD_ITEM keeps ids unique and adds the payload quantity to the total
      quantity held under the payload's id, whether it merges or appends. */
  lemma {:induction false} AddQuantity(s: CartState, p: CartItem)
    requires UniqueIds(s.items)
    ensures UniqueIds(Step(s, AddItem(p)).items)
    ensures QuantityOf(Step(s, AddItem(p)).items, p.id) == QuantityOf(s.items, p.id) + p.quantity
  {
    assert Step(s, AddItem(p)).items == AddToItems(s.items, p);
    HasIdIff(s.items, p.id);
    if HasId(s.items, p.id) {
      var k :| 0 <= k < |s.items| && s.items[k].id == p.id;
      MergeQuantity(s.items, p, k);
    } else {
      AppendQuantity(s.items, p);
    }
  }

  /** The total quantity of the ADD_ITEM actions in a sequence. */
  function AddedQuantity(acts: seq<CartAction>): int
  {
    if acts == [] then 0
    else (if acts[0].AddItem? then acts[0].item.quantity else 0) + AddedQuantity(acts[1..])
  }

  /** Any run of ADD_ITEM actions for one id leaves that id holding the old
      quantity plus the sum of the added quantities. */
  lemma {:induction false} RepeatedAdds(s: CartState, acts: seq<CartAction>, id: string)
    requires UniqueIds(s.items)
    requires forall k | 0 <= k < |acts| :: acts[k].AddItem? && acts[k].item.id == id
    ensures UniqueIds(Run(s, acts).items)
    ensures QuantityOf(Run(s, acts).items, id) == QuantityOf(s.items, id) + AddedQuantity(acts)
    decreases |acts|
  {
    if acts != [] {
      AddQuantity(s, acts[0].item);
      RepeatedAdds(Step(s, acts[0]), acts[1..], id);
    }
  }

  /** REMOVE_ITEM leaves no item with the id, keeps every other item with
      its multiplicity and relative order, and still pushes the prior
      state and clears the errors when the id is absent; every other
      field, the loading flag included, is kept. */
  lemma RemoveSpec(s: CartState, id: string)
    ensures var r := Step(s, RemoveItem(id));
      && (forall x | x in r.items :: x.id != id)
      && IsSubseq(r.items, s.items)
      && (forall x | x in s.items && x.id != id :: multiset(r.items)[x] == multiset(s.items)[x])
      && r.undoStack == [s] + s.undoStack && r.errors == []
      && r.discountCode == s.discountCode && r.discountAmount == s.discountAmount
      && r.totals == CalcTotals(r.items, s.discountAmount)
      && r.isLoading == s.isLoading
      && r == s.(undoStack := [s] + s.undoStack, items := r.items,
                 totals := CalcTotals(r.items, s.discountAmount), errors := [])
  {
    FilterSubseq(s.items, (i: CartItem) => i.id != id);
  }

  /** REMOVE_ITEM of an absent id keeps the items as they are. */
  lemma RemoveAbsent(s: CartState, id: string)
    requires forall j | 0 <= j < |s.items| :: s.items[j].id != id
    ensures Step(s, RemoveItem(id)).items == s.items
  {
    FilterAll(s.items, (i: CartItem) => i.id != id);
  }

  /** UPDATE_QUANTITY below 1 is ignored outright: no undo entry, no change. */
  lemma UpdateBelowOne(s: CartState, id: string, q: int)
    requires q < 1
    ensures Step(s, UpdateQuantity(id, q)) == s
  {
  }

  /** UPDATE_QUANTITY of at least 1 sets the quantity of the items with the
      id, changes no other item, and recomputes the totals; every other
      field, the loading flag included, is kept. */
  lemma UpdateSpec(s: CartState, id: string, q: int)
    requires q >= 1
    ensures var r := Step(s, UpdateQuantity(id, q));
      && |r.items| == |s.items|
      && (forall j | 0 <= j < |r.items| :: r.items[j].id == s.items[j].id)
      && (forall j | 0 <= j < |r.items| :: r.items[j].quantity == if s.items[j].id == id then q else s.items[j].quantity)
      && (forall j | 0 <= j < |r.items| :: r.items[j].(quantity := s.items[j].quantity) == s.items[j])
      && r.undoStack == [s] + s.undoStack && r.errors == []
      && r.discountCode == s.discountCode && r.discountAmount == s.discountAmount
      && r.totals == CalcTotals(r.items, s.discountAmount)
      && r.isLoading == s.isLoading
      && r == s.(undoStack := [s] + s.undoStack, items := r.items,
                 totals := CalcTotals(r.items, s.discountAmount), errors := [])
  {
  }

  // ---------------------------------------------------------------------
  // Discount codes

  /** APPLY_DISCOUNT stores the trimmed code and applies the demo rules to
      it; the items and the loading flag are kept. */
  lemma DiscountRules(s: CartState, payload: string)
    ensures var r := Step(s, ApplyDiscount(payload)); var code := Trim(payload);
      && r.discountCode == code
      && r.items == s.items
      && r.undoStack == [s] + s.undoStack
      && r.totals == CalcTotals(s.items, r.discountAmount)
      && (code == "" ==> r.discountAmount == 0 && r.errors == [])
      && (Upper(code) == "SAVE10" ==> r.discountAmount == Save10Amount && r.errors == [])
      && (Upper(code) == "HALFOFF" ==>
            -1 <= 2 * r.discountAmount - Subtotal(s.items) <= 1 && r.errors == [])
      && (code != "" && Upper(code) != "SAVE10" && Upper(code) != "HALFOFF" ==>
            r.discountAmount == 0 && r.errors == [InvalidCodeError])
      && r.isLoading == s.isLoading
      && r == s.(undoStack := [s] + s.undoStack, discountCode := code, discountAmount := r.discountAmount,
                 totals := CalcTotals(s.items, r.discountAmount), errors := r.errors)
  {
  }

  /** The structural item actions keep the discount as it was: its amount is
      not recomputed for the new items. */
  lemma ItemActionsKeepDiscount(s: CartState, a: CartAction)
    requires a.AddItem? || a.RemoveItem? || a.UpdateQuantity?
    ensures Step(s, a).discountCode == s.discountCode
    ensures Step(s, a).discountAmount == s.discountAmount
    ensures !(a.UpdateQuantity? && a.quantity < 1) ==> Step(s, a).errors == []
  {
  }

  /** CLEAR_ERRORS, SET_ERRORS and SET_LOADING change their one field only. */
  lemma FieldActions(s: CartState, b: bool, errs: seq<string>)
    ensures Step(s, ClearErrors).errors == [] && Step(s, ClearErrors).(errors := s.errors) == s
    ensures Step(s, SetErrors(errs)).errors == errs && Step(s, SetErrors(errs)).(errors := s.errors) == s
    ensures Step(s, SetLoading(b)).isLoading == b && Step(s, SetLoading(b)).(isLoading := s.isLoading) == s
  {
  }

  /** LOAD_CART installs its payload verbatim, whatever the state was. */
  lemma LoadCartSpec(s: CartState, snapshot: CartState)
    ensures Step(s, LoadCart(snapshot)) == snapshot
  {
  }

  /** ADD_ITEM, REMOVE_ITEM and UPDATE_QUANTITY of at least 1 push the prior
      state, recompute the totals for the new items with the discount kept,
      clear the errors, and keep every other field, the loading flag
      included. */
  lemma ItemActionsFrame(s: CartState, a: CartAction)
    requires a.AddItem? || a.RemoveItem? || (a.UpdateQuantity? && a.quantity >= 1)
    ensures var r := Step(s, a);
      && r.isLoading == s.isLoading
      && r == s.(undoStack := [s] + s.undoStack, items := r.items,
                 totals := CalcTotals(r.items, s.discountAmount), errors := [])
  {
  }

  // ---------------------------------------------------------------------
  // Undo

  /** The actions that push the prior state before changing it. */
  predicate PushesUndo(a: CartAction)
  {
    a.AddItem? || a.RemoveItem? || (a.UpdateQuantity? && a.quantity >= 1) || a.ApplyDiscount?
  }

  /** A structural action pushes exactly the prior state, so UNDO of its
      result is exactly the prior state. */
  lemma UndoRestores(s: CartState, a: CartAction)
    requires PushesUndo(a)
    ensures Step(s, a).undoStack == [s] + s.undoStack
    ensures Step(Step(s, a), Undo) == s
  {
  }

  /** The other actions leave the undo stack alone (LOAD_CART replaces it
      with the payload's). */
  lemma NoPushOtherwise(s: CartState, a: CartAction)
    requires !PushesUndo(a) && !a.LoadCart? && !a.Undo?
    ensures Step(s, a).undoStack == s.undoStack
  {
  }

  /** UNDO on an empty stack changes nothing; otherwise it restores the top
      snapshot and consumes exactly one entry. */
  lemma UndoSpec(s: CartState)
    ensures s.undoStack == [] ==> Step(s, Undo) == s
    ensures s.undoStack != [] ==>
      && Step(s, Undo).(undoStack := s.undoStack[0].undoStack) == s.undoStack[0]
      && Step(s, Undo).undoStack == s.undoStack[1..]
      && |Step(s, Undo).undoStack| == |s.undoStack| - 1
  {
  }

  // ---------------------------------------------------------------------
  // The reducer's invariant

  /** Totals agree with the items and the discount, ids are unique, and the
      same holds of every snapshot on the undo stack. */
  predicate Coherent(s: CartState)
    decreases s
  {
    && s.totals == CalcTotals(s.items, s.discountAmount)
    && UniqueIds(s.items)
    && forall t | t in s.undoStack :: Coherent(t)
  }

  lemma InitialCoherent()
    ensures Coherent(InitialState)
  {
  }

  /** A structural change to items with unique ids keeps a coherent state coherent. */
  lemma StructuralCoherent(s: CartState, items: seq<CartItem>)
    requires Coherent(s) && UniqueIds(items)
    ensures Coherent(Structural(s, items))
  {
    var r := Structural(s, items);
    assert forall t | t in r.undoStack :: t == s || t in s.undoStack;
  }

  /** UNDO of a coherent state is coherent. */
  lemma UndoCoherent(s: CartState)
    requires Coherent(s)
    ensures Coherent(Step(s, Undo))
  {
    if s.undoStack != [] {
      assert s.undoStack[0] in s.undoStack;
      assert forall u | u in s.undoStack[1..] :: u in s.undoStack;
    }
  }

  /** Every action keeps the state coherent, provided a loaded snapshot is. */
  lemma StepCoherent(s: CartState, a: CartAction)
    requires Coherent(s)
    requires a.LoadCart? ==> Coherent(a.snapshot)
    ensures Coherent(Step(s, a))
  {
    match a
    case AddItem(p) =>
      AddQuantity(s, p);
      StructuralCoherent(s, AddToItems(s.items, p));
    case RemoveItem(id) =>
      FilterUniqueIds(s.items, (i: CartItem) => i.id != id);
      StructuralCoherent(s, RemoveFromItems(s.items, id));
    case UpdateQuantity(id, q) =>
      if q >= 1 {
        var items := SetQuantity(s.items, id, q);
        assert forall j | 0 <= j < |items| :: items[j].id == s.items[j].id;
        StructuralCoherent(s, items);
      }
    case ApplyDiscount(payload) =>
      var r := Step(s, a);
      assert forall t | t in r.undoStack :: t == s || t in s.undoStack;
    case Undo =>
      UndoCoherent(s);
    case _ =>
  }

  /** A run of actions keeps the state coherent when every loaded snapshot is. */
  lemma {:induction false} RunCoherent(s: CartState, acts: seq<CartAction>)
    requires Coherent(s)
    requires forall k | 0 <= k < |acts| :: acts[k].LoadCart? ==> Coherent(acts[k].snapshot)
    ensures Coherent(Run(s, acts))
    decreases |acts|
  {
    if acts != [] {
      StepCoherent(s, acts[0]);
      RunCoherent(Step(s, acts[0]), acts[1..]);
    }
  }

  // ---------------------------------------------------------------------
  // Worked examples

  const Two: CartItem := CartItem("p1", "Shirt", 1000, 2, "shirt.png")
  const One: CartItem := CartItem("p2", "Socks", 500, 1, "socks.png")

  lemma SampleSubtotal()
    ensures Subtotal([Two, One]) == 2500
  {
    assert Subtotal([Two]) == 2000;
    SubtotalAppend([Two], One);
    assert [Two] + [One] == [Two, One];
  }

  /** Two items at 10.00 x 2 and 5.00 x 1: subtotal 25.00, tax 2.50,
      shipping 5.00, total 32.50. */
  lemma SampleTotals()
    ensures CalcTotals([Two, One], 0) == Totals(2500, 250, 500, 3250)
  {
    SampleSubtotal();
  }

  /** SAVE10 on the sample cart brings the total to 22.50. */
  lemma SampleSave10(s: CartState)
    requires s.items == [Two, One]
    ensures Step(s, ApplyDiscount("SAVE10")).discountAmount == 1000
    ensures Step(s, ApplyDiscount("SAVE10")).totals.total == 2250
  {
    TrimFixed("SAVE10");
    Save10Sample();
    SampleSubtotal();
  }

  lemma Save10Sample()
    ensures DiscountRule("SAVE10", [Two, One]) == (1000, [])
  {
    UpperFixed("SAVE10");
  }

  lemma HalfOffSample()
    ensures DiscountRule("halfoff", [Two, One]) == (1250, [])
  {
    assert Upper("halfoff") == "HALFOFF";
    SampleSubtotal();
  }

  /** HALFOFF, in any case, takes 12.50 off for 20.00. */
  lemma SampleHalfOff(s: CartState)
    requires s.items == [Two, One]
    ensures Step(s, ApplyDiscount("halfoff")).discountCode == "halfoff"
    ensures Step(s, ApplyDiscount("halfoff")).discountAmount == 1250
    ensures Step(s, ApplyDiscount("halfoff")).totals.total == 2000
  {
    TrimFixed("halfoff");
    HalfOffSample();
    SampleSubtotal();
  }

  lemma BogusSample()
    ensures DiscountRule("bogus", [Two, One]) == (0, [InvalidCodeError])
  {
    assert Upper("bogus") == "BOGUS";
  }

  /** An unknown code takes nothing off and reports the invalid code. */
  lemma SampleBogus(s: CartState)
    requires s.items == [Two, One]
    ensures Step(s, ApplyDiscount("bogus")).totals.total == 3250
    ensures Step(s, ApplyDiscount("bogus")).errors == [InvalidCodeError]
  {
    TrimFixed("bogus");
    BogusSample();
    SampleSubtotal();
  }

  /** Adding the only item charges shipping; removing it again drops it. */
  lemma ShippingToggles(p: CartItem)
    ensures Step(InitialState, AddItem(p)).totals.shipping == ShippingFlat
    ensures Step(Step(InitialState, AddItem(p)), RemoveItem(p.id)).totals.shipping == 0
  {
    var s := Step(InitialState, AddItem(p));
    assert s.items == [p] by {
      AddNew(InitialState, p);
    }
    assert RemoveFromItems([p], p.id) == [] by {
      assert [p][1..] == [];
    }
  }
}
