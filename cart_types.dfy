/** The shopping-cart data model. Amounts of money are integer cents. */
module CartTypes {

  /** One line of the cart; `id` identifies the product. */
  datatype CartItem = CartItem(id: string, name: string, price: int, quantity: int, image: string)

  /** The derived amounts shown to the shopper. */
  datatype Totals = Totals(subtotal: int, tax: int, shipping: int, total: int)

  /** The whole cart. Every snapshot on `undoStack` is itself a complete
      state, with its own undo stack, most recent first. */
  datatype CartState = CartState(
    items: seq<CartItem>,
    discountCode: string,
    discountAmount: int,
    totals: Totals,
    isLoading: bool,
    errors: seq<string>,
    undoStack: seq<CartState>)

  /** The nine actions the reducer understands, with their payloads. */
  datatype CartAction =
    | LoadCart(snapshot: CartState)
    | AddItem(item: CartItem)
    | RemoveItem(id: string)
    | UpdateQuantity(id: string, quantity: int)
    | ApplyDiscount(code: string)
    | ClearErrors
    | Undo
    | SetLoading(loading: bool)
    | SetErrors(errors: seq<string>)
}
