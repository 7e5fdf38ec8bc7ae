/** The cart reducer of the breakfast order page: the updater functions that `addToCart`,
    `removeFromCart` and `updateQuantity` pass to the cart state setter, and `getTotalItems`.
    A cart is a sequence of order lines; a line is identified by the key (id, type). */
module Cart {
  import opened Wrappers

  /** The temperature choice of a drink; food lines carry none. */
  datatype Temp = Ice | Hot | NoIce

  type Kind = Option<Temp>

  /** The two fields of a menu item or drink that adding it to the cart reads. */
  datatype CatalogItem = CatalogItem(id: int, name: string)

  /** One cart line (the `price` field, always 0, is left out). */
  datatype OrderItem = OrderItem(id: int, name: string, quantity: int, kind: Kind)

  type CartLines = seq<OrderItem>

  function TempLabel(t: Temp): string {
    match t
    case Ice => "冰"
    case Hot => "熱"
    case NoIce => "去冰"
  }

  /** The display name a new line gets: the item's name, and for a drink its temperature in parentheses. */
  function LineName(item: CatalogItem, kind: Kind): string {
    item.name + (if kind.Some? then " (" + TempLabel(kind.value) + ")" else "")
  }

  /** The line name starts with the item's name; a drink's name goes on with its temperature label. */
  lemma LineNameShape(item: CatalogItem, kind: Kind)
    ensures |LineName(item, kind)| >= |item.name| && LineName(item, kind)[..|item.name|] == item.name
    ensures kind.None? <==> LineName(item, kind) == item.name
    ensures kind.Some? ==> LineName(item, kind)[|item.name|..] == " (" + TempLabel(kind.value) + ")"
  {
  }

  /** The name of a line tells which temperature was chosen for it. */
  lemma LineNameDeterminesKind(item: CatalogItem, k1: Kind, k2: Kind)
    ensures LineName(item, k1) == LineName(item, k2) <==> k1 == k2
  {
    var n := |item.name|;
    var a, b := LineName(item, k1), LineName(item, k2);
    LineNameShape(item, k1);
    LineNameShape(item, k2);
    if k1.Some? && k2.Some? && k1 != k2 {
      if k1.value == NoIce || k2.value == NoIce {
        assert |a| != |b|;
      } else {
        assert a[n + 2] != b[n + 2];
      }
    }
  }

  predicate Matches(line: OrderItem, id: int, kind: Kind) {
    line.id == id && line.kind == kind
  }

  /** `prevCart.find(...)` finds a line with this key. */
  predicate HasKey(cart: CartLines, id: int, kind: Kind) {
    exists i | 0 <= i < |cart| :: Matches(cart[i], id, kind)
  }

  /** No two lines share a key. */
  predicate UniqueKeys(cart: CartLines) {
    forall i, j | 0 <= i < j < |cart| :: !Matches(cart[j], cart[i].id, cart[i].kind)
  }

  /** Every line holds at least one portion. */
  predicate AllPositive(cart: CartLines) {
    forall i | 0 <= i < |cart| :: cart[i].quantity >= 1
  }

  /** The invariant every reachable cart keeps. */
  predicate Valid(cart: CartLines) {
    UniqueKeys(cart) && AllPositive(cart)
  }

  /** The `map` in `addToCart`: one more portion on every line with the key. */
  function Increment(cart: CartLines, id: int, kind: Kind): (r: CartLines)
    ensures |r| == |cart|
    decreases |cart|
  {
    if cart == [] then []
    else
      var line := if Matches(cart[0], id, kind) then cart[0].(quantity := cart[0].quantity + 1) else cart[0];
      [line] + Increment(cart[1..], id, kind)
  }

  /** The `map` raises exactly the lines with the key, each by one portion, and keeps every other line. */
  lemma {:induction false} IncrementAt(cart: CartLines, id: int, kind: Kind, i: int)
    requires 0 <= i < |cart|
    ensures Increment(cart, id, kind)[i]
         == if Matches(cart[i], id, kind) then cart[i].(quantity := cart[i].quantity + 1) else cart[i]
    decreases |cart|
  {
    if i > 0 {
      IncrementAt(cart[1..], id, kind, i - 1);
    }
  }

  lemma IncrementKeepsKey(cart: CartLines, id: int, kind: Kind)
    requires HasKey(cart, id, kind)
    ensures HasKey(Increment(cart, id, kind), id, kind)
  {
    var i :| 0 <= i < |cart| && Matches(cart[i], id, kind);
    IncrementAt(cart, id, kind, i);
  }

  /** `addToCart(item, type)`: merge into the line with the same key, or append a new line of one portion. */
  function AddToCart(cart: CartLines, item: CatalogItem, kind: Kind): (r: CartLines)
    ensures HasKey(r, item.id, kind)
    ensures HasKey(cart, item.id, kind) ==> |r| == |cart|
    ensures !HasKey(cart, item.id, kind) ==>
      |r| == |cart| + 1 && r[..|cart|] == cart && r[|cart|] == OrderItem(item.id, LineName(item, kind), 1, kind)
  {
    if HasKey(cart, item.id, kind) then
      IncrementKeepsKey(cart, item.id, kind);
      Increment(cart, item.id, kind)
    else
      var r := cart + [OrderItem(item.id, LineName(item, kind), 1, kind)];
      assert Matches(r[|cart|], item.id, kind);
      r
  }

  /** `removeFromCart(id, type)`: the `filter` that drops every line with the key. */
  function RemoveFromCart(cart: CartLines, id: int, kind: Kind): (r: CartLines)
    ensures |r| <= |cart|
    decreases |cart|
  {
    if cart == [] then []
    else (if Matches(cart[0], id, kind) then [] else [cart[0]]) + RemoveFromCart(cart[1..], id, kind)
  }

  /** The `map` in `updateQuantity`: every line with the key gets the new quantity. */
  function SetQuantity(cart: CartLines, id: int, kind: Kind, quantity: int): (r: CartLines)
    ensures |r| == |cart|
    ensures forall i | 0 <= i < |cart| ::
      r[i] == if Matches(cart[i], id, kind) then cart[i].(quantity := quantity) else cart[i]
    decreases |cart|
  {
    if cart == [] then []
    else
      var line := if Matches(cart[0], id, kind) then cart[0].(quantity := quantity) else cart[0];
      [line] + SetQuantity(cart[1..], id, kind, quantity)
  }

  /** `updateQuantity(id, type, quantity)`: zero or less removes the line, otherwise it is overwritten. */
  function UpdateQuantity(cart: CartLines, id: int, kind: Kind, quantity: int): (r: CartLines)
    ensures quantity <= 0 ==> r == RemoveFromCart(cart, id, kind)
    ensures quantity > 0 ==> |r| == |cart| && forall i | 0 <= i < |cart| ::
      r[i] == if Matches(cart[i], id, kind) then cart[i].(quantity := quantity) else cart[i]
    ensures |r| <= |cart|
  {
    if quantity <= 0 then RemoveFromCart(cart, id, kind) else SetQuantity(cart, id, kind, quantity)
  }

  /** `getTotalItems()`: the `reduce` summing the quantities of all lines. */
  function TotalItems(cart: CartLines): (n: int)
    ensures cart == [] ==> n == 0
    ensures AllPositive(cart) ==> n >= |cart|
    decreases |cart|
  {
    if cart == [] then 0 else cart[0].quantity + TotalItems(cart[1..])
  }

  // Properties of the updaters.

  /** On a cart with unique keys, adding an item that is already there raises that one line's
      quantity by one and changes nothing else: same length, same order, same names. */
  lemma AddToCartExisting(cart: CartLines, item: CatalogItem, kind: Kind, i: int)
    requires UniqueKeys(cart)
    requires 0 <= i < |cart| && Matches(cart[i], item.id, kind)
    ensures AddToCart(cart, item, kind) == cart[i := cart[i].(quantity := cart[i].quantity + 1)]
  {
    var r := AddToCart(cart, item, kind);
    forall j | 0 <= j < |cart|
      ensures r[j] == cart[i := cart[i].(quantity := cart[i].quantity + 1)][j]
    {
      IncrementAt(cart, item.id, kind, j);
      if j < i {
        assert !Matches(cart[i], cart[j].id, cart[j].kind);
      }
    }
  }

  lemma AddToCartNew(cart: CartLines, item: CatalogItem, kind: Kind)
    requires !HasKey(cart, item.id, kind)
    ensures AddToCart(cart, item, kind) == cart + [OrderItem(item.id, LineName(item, kind), 1, kind)]
  {
  }

  /** Adding one item `n` times in a row to a cart without its key leaves a single new line of `n` portions. */
  lemma RepeatedAdds(cart: CartLines, item: CatalogItem, kind: Kind, n: nat)
    requires !HasKey(cart, item.id, kind)
    requires n >= 1
    ensures AddTimes(cart, item, kind, n) == cart + [OrderItem(item.id, LineName(item, kind), n, kind)]
  {
    AddToCartNew(cart, item, kind);
    MoreAdds(cart, item, kind, 1, n - 1);
  }

  /** Further adds to the line appended last only raise its quantity. */
  lemma {:induction false} MoreAdds(cart: CartLines, item: CatalogItem, kind: Kind, q: int, m: nat)
    requires !HasKey(cart, item.id, kind)
    ensures AddTimes(cart + [OrderItem(item.id, LineName(item, kind), q, kind)], item, kind, m)
         == cart + [OrderItem(item.id, LineName(item, kind), q + m, kind)]
    decreases m
  {
    if m > 0 {
      AddToNewLine(cart, item, kind, q);
      MoreAdds(cart, item, kind, q + 1, m - 1);
    }
  }

  /** One more add of the item whose line was appended last raises that line by one. */
  lemma AddToNewLine(cart: CartLines, item: CatalogItem, kind: Kind, q: int)
    requires !HasKey(cart, item.id, kind)
    ensures AddToCart(cart + [OrderItem(item.id, LineName(item, kind), q, kind)], item, kind)
         == cart + [OrderItem(item.id, LineName(item, kind), q + 1, kind)]
  {
    var last := OrderItem(item.id, LineName(item, kind), q, kind);
    var prev := cart + [last];
    assert HasKey(prev, item.id, kind) by {
      assert Matches(prev[|cart|], item.id, kind);
    }
    assert AddToCart(prev, item, kind) == Increment(prev, item.id, kind);
    IncrementLast(cart, last);
    assert last.(quantity := last.quantity + 1) == OrderItem(item.id, LineName(item, kind), q + 1, kind);
  }

  /** Adding to the key of the last line, held by no other line, raises that line alone. */
  lemma IncrementLast(cart: CartLines, last: OrderItem)
    requires !HasKey(cart, last.id, last.kind)
    ensures Increment(cart + [last], last.id, last.kind) == cart + [last.(quantity := last.quantity + 1)]
  {
    var got := Increment(cart + [last], last.id, last.kind);
    var want := cart + [last.(quantity := last.quantity + 1)];
    forall j | 0 <= j < |want| ensures got[j] == want[j] {
      IncrementAt(cart + [last], last.id, last.kind, j);
      if j < |cart| {
        assert (cart + [last])[j] == cart[j];
        assert !Matches(cart[j], last.id, last.kind);
      }
    }
  }

  /** Starting from the empty cart, `n` adds of one item give exactly one line holding `n` portions. */
  lemma RepeatedAddsFromEmpty(item: CatalogItem, kind: Kind, n: nat)
    requires n >= 1
    ensures AddTimes([], item, kind, n) == [OrderItem(item.id, LineName(item, kind), n, kind)]
  {
    RepeatedAdds([], item, kind, n);
  }

  /** The cart after `n` clicks on the same add button. */
  ghost function AddTimes(cart: CartLines, item: CatalogItem, kind: Kind, n: nat): CartLines
    decreases n
  {
    if n == 0 then cart else AddTimes(AddToCart(cart, item, kind), item, kind, n - 1)
  }

  /** Filtering distributes over concatenation, so the lines kept stay in their original order. */
  lemma {:induction false} RemoveAppend(a: CartLines, b: CartLines, id: int, kind: Kind)
    ensures RemoveFromCart(a + b, id, kind) == RemoveFromCart(a, id, kind) + RemoveFromCart(b, id, kind)
    decreases |a|
  {
    if a == [] {
      assert a + b == b;
    } else {
      assert (a + b)[0] == a[0];
      assert (a + b)[1..] == a[1..] + b;
      RemoveAppend(a[1..], b, id, kind);
    }
  }

  /** The lines kept are exactly the lines of the cart whose key differs from the removed one. */
  lemma {:induction false} RemoveKeepsOthers(cart: CartLines, id: int, kind: Kind, line: OrderItem)
    ensures line in RemoveFromCart(cart, id, kind) <==> line in cart && !Matches(line, id, kind)
    decreases |cart|
  {
    if cart != [] {
      RemoveKeepsOthers(cart[1..], id, kind, line);
      assert cart == [cart[0]] + cart[1..];
    }
  }

  /** After a removal no line carries the key. */
  lemma RemoveLeavesNoKey(cart: CartLines, id: int, kind: Kind)
    ensures !HasKey(RemoveFromCart(cart, id, kind), id, kind)
  {
    var r := RemoveFromCart(cart, id, kind);
    forall i | 0 <= i < |r| ensures !Matches(r[i], id, kind) {
      RemoveKeepsOthers(cart, id, kind, r[i]);
    }
  }

  /** Removing a key the cart does not hold leaves the cart unchanged. */
  lemma {:induction false} RemoveMissing(cart: CartLines, id: int, kind: Kind)
    requires !HasKey(cart, id, kind)
    ensures RemoveFromCart(cart, id, kind) == cart
    decreases |cart|
  {
    if cart != [] {
      assert !Matches(cart[0], id, kind);
      assert !HasKey(cart[1..], id, kind) by {
        forall j | 0 <= j < |cart[1..]| ensures !Matches(cart[1..][j], id, kind) {
          assert cart[1..][j] == cart[j + 1];
        }
      }
      RemoveMissing(cart[1..], id, kind);
    }
  }

  /** On a cart with unique keys, removing the key of line `i` deletes exactly that line. */
  lemma RemoveAt(cart: CartLines, id: int, kind: Kind, i: int)
    requires UniqueKeys(cart)
    requires 0 <= i < |cart| && Matches(cart[i], id, kind)
    ensures RemoveFromCart(cart, id, kind) == cart[..i] + cart[i + 1..]
  {
    var before, after := cart[..i], cart[i + 1..];
    assert RemoveFromCart(before, id, kind) == before by {
      KeyOnlyAt(cart, id, kind, i);
      assert !HasKey(before, id, kind);
      RemoveMissing(before, id, kind);
    }
    assert RemoveFromCart(after, id, kind) == after by {
      KeyOnlyAt(cart, id, kind, i);
      assert !HasKey(after, id, kind);
      RemoveMissing(after, id, kind);
    }
    assert RemoveFromCart(before + [cart[i]], id, kind) == before by {
      RemoveAppend(before, [cart[i]], id, kind);
    }
    assert cart == before + [cart[i]] + after;
    RemoveAppend(before + [cart[i]], after, id, kind);
  }

  /** With unique keys, the line at `i` is the only one with its key. */
  lemma KeyOnlyAt(cart: CartLines, id: int, kind: Kind, i: int)
    requires UniqueKeys(cart)
    requires 0 <= i < |cart| && Matches(cart[i], id, kind)
    ensures forall j | 0 <= j < |cart| && j != i :: !Matches(cart[j], id, kind)
  {
    forall j | 0 <= j < |cart| && j != i ensures !Matches(cart[j], id, kind) {
      if j < i {
        assert !Matches(cart[i], cart[j].id, cart[j].kind);
      }
    }
  }

  /** Updating a key the cart does not hold leaves the cart unchanged, whatever the quantity. */
  lemma UpdateMissing(cart: CartLines, id: int, kind: Kind, quantity: int)
    requires !HasKey(cart, id, kind)
    ensures UpdateQuantity(cart, id, kind, quantity) == cart
  {
    if quantity <= 0 {
      RemoveMissing(cart, id, kind);
    }
  }

  /** On a cart with unique keys, a positive update overwrites the quantity of line `i` and nothing else. */
  lemma UpdateAt(cart: CartLines, id: int, kind: Kind, quantity: int, i: int)
    requires UniqueKeys(cart)
    requires 0 <= i < |cart| && Matches(cart[i], id, kind)
    requires quantity > 0
    ensures UpdateQuantity(cart, id, kind, quantity) == cart[i := cart[i].(quantity := quantity)]
  {
    forall j | 0 <= j < |cart| && j != i
      ensures !Matches(cart[j], id, kind)
    {
      if j < i {
        assert !Matches(cart[i], cart[j].id, cart[j].kind);
      }
    }
  }

  // The invariant is kept.

  lemma AddToCartKeepsValid(cart: CartLines, item: CatalogItem, kind: Kind)
    requires Valid(cart)
    ensures Valid(AddToCart(cart, item, kind))
  {
    if HasKey(cart, item.id, kind) {
      IncrementKeepsValid(cart, item.id, kind);
    } else {
      var r := AddToCart(cart, item, kind);
      forall i, j | 0 <= i < j < |r| ensures !Matches(r[j], r[i].id, r[i].kind) {
        if j < |cart| {
          assert r[i] == cart[i] && r[j] == cart[j];
        } else {
          assert r[i] == cart[i];
        }
      }
    }
  }

  lemma IncrementKeepsValid(cart: CartLines, id: int, kind: Kind)
    requires Valid(cart)
    ensures Valid(Increment(cart, id, kind))
  {
    var r := Increment(cart, id, kind);
    forall k | 0 <= k < |cart|
      ensures r[k].id == cart[k].id && r[k].kind == cart[k].kind && r[k].quantity >= cart[k].quantity
    {
      IncrementAt(cart, id, kind, k);
    }
  }

  lemma RemoveKeepsValid(cart: CartLines, id: int, kind: Kind)
    requires Valid(cart)
    ensures Valid(RemoveFromCart(cart, id, kind))
  {
    if HasKey(cart, id, kind) {
      var i :| 0 <= i < |cart| && Matches(cart[i], id, kind);
      RemoveAt(cart, id, kind, i);
      var r := RemoveFromCart(cart, id, kind);
      forall a, b | 0 <= a < b < |r| ensures !Matches(r[b], r[a].id, r[a].kind) {
        var a' := if a < i then a else a + 1;
        var b' := if b < i then b else b + 1;
        assert r[a] == cart[a'] && r[b] == cart[b'];
      }
    } else {
      RemoveMissing(cart, id, kind);
    }
  }

  lemma UpdateKeepsValid(cart: CartLines, id: int, kind: Kind, quantity: int)
    requires Valid(cart)
    ensures Valid(UpdateQuantity(cart, id, kind, quantity))
  {
    if quantity <= 0 {
      RemoveKeepsValid(cart, id, kind);
    } else {
      var r := UpdateQuantity(cart, id, kind, quantity);
      forall i, j | 0 <= i < j < |r| ensures !Matches(r[j], r[i].id, r[i].kind) {
        assert !Matches(cart[j], cart[i].id, cart[i].kind);
      }
    }
  }

  // Totals.

  lemma {:induction false} TotalAppend(a: CartLines, b: CartLines)
    ensures TotalItems(a + b) == TotalItems(a) + TotalItems(b)
    decreases |a|
  {
    if a == [] {
      assert a + b == b;
    } else {
      TotalAppend(a[1..], b);
      assert (a + b)[1..] == a[1..] + b;
    }
  }

  /** The `reduce` read from the other end: the last line adds its quantity. */
  lemma TotalLast(cart: CartLines)
    requires cart != []
    ensures TotalItems(cart) == TotalItems(cart[..|cart| - 1]) + cart[|cart| - 1].quantity
  {
    var last := cart[|cart| - 1];
    assert cart == cart[..|cart| - 1] + [last];
    TotalAppend(cart[..|cart| - 1], [last]);
    assert TotalItems([last]) == last.quantity;
  }

  lemma {:induction false} TotalReplace(cart: CartLines, i: int, line: OrderItem)
    requires 0 <= i < |cart|
    ensures TotalItems(cart[i := line]) == TotalItems(cart) - cart[i].quantity + line.quantity
    decreases |cart|
  {
    if i > 0 {
      TotalReplace(cart[1..], i - 1, line);
      assert cart[i := line][1..] == cart[1..][i - 1 := line];
    }
  }

  /** Each add puts exactly one more portion in the cart. */
  lemma AddToCartTotal(cart: CartLines, item: CatalogItem, kind: Kind)
    requires UniqueKeys(cart)
    ensures TotalItems(AddToCart(cart, item, kind)) == TotalItems(cart) + 1
  {
    if HasKey(cart, item.id, kind) {
      var i :| 0 <= i < |cart| && Matches(cart[i], item.id, kind);
      AddToCartExisting(cart, item, kind, i);
      TotalReplace(cart, i, cart[i].(quantity := cart[i].quantity + 1));
    } else {
      TotalAppend(cart, [OrderItem(item.id, LineName(item, kind), 1, kind)]);
      assert AddToCart(cart, item, kind) == cart + [OrderItem(item.id, LineName(item, kind), 1, kind)];
    }
  }

  /** Removing line `i` takes its portions out of the total. */
  lemma RemoveTotal(cart: CartLines, id: int, kind: Kind, i: int)
    requires UniqueKeys(cart)
    requires 0 <= i < |cart| && Matches(cart[i], id, kind)
    ensures TotalItems(RemoveFromCart(cart, id, kind)) == TotalItems(cart) - cart[i].quantity
  {
    RemoveAt(cart, id, kind, i);
    assert cart == cart[..i] + [cart[i]] + cart[i + 1..];
    TotalAppend(cart[..i] + [cart[i]], cart[i + 1..]);
    TotalAppend(cart[..i], [cart[i]]);
    TotalAppend(cart[..i], cart[i + 1..]);
  }

  /** A positive update of line `i` changes the total by the difference of quantities. */
  lemma UpdateTotal(cart: CartLines, id: int, kind: Kind, quantity: int, i: int)
    requires UniqueKeys(cart)
    requires 0 <= i < |cart| && Matches(cart[i], id, kind)
    requires quantity > 0
    ensures TotalItems(UpdateQuantity(cart, id, kind, quantity)) == TotalItems(cart) - cart[i].quantity + quantity
  {
    UpdateAt(cart, id, kind, quantity, i);
    TotalReplace(cart, i, cart[i].(quantity := quantity));
  }

  // Every cart reached from the empty one by the page's actions is valid.

  /** A user action on the cart: one call of addToCart, removeFromCart or updateQuantity. */
  datatype Action =
    | Add(item: CatalogItem, kind: Kind)
    | Remove(id: int, kind: Kind)
    | Update(id: int, kind: Kind, quantity: int)

  function Step(cart: CartLines, action: Action): CartLines {
    match action
    case Add(item, kind) => AddToCart(cart, item, kind)
    case Remove(id, kind) => RemoveFromCart(cart, id, kind)
    case Update(id, kind, quantity) => UpdateQuantity(cart, id, kind, quantity)
  }

  /** The cart after the actions, applied in order. */
  function Run(cart: CartLines, actions: seq<Action>): CartLines
    decreases |actions|
  {
    if actions == [] then cart else Run(Step(cart, actions[0]), actions[1..])
  }

  lemma {:induction false} RunKeepsValid(cart: CartLines, actions: seq<Action>)
    requires Valid(cart)
    ensures Valid(Run(cart, actions))
    decreases |actions|
  {
    if actions != [] {
      match actions[0] {
        case Add(item, kind) => AddToCartKeepsValid(cart, item, kind);
        case Remove(id, kind) => RemoveKeepsValid(cart, id, kind);
        case Update(id, kind, quantity) => UpdateKeepsValid(cart, id, kind, quantity);
      }
      RunKeepsValid(Step(cart, actions[0]), actions[1..]);
    }
  }

  /** From the empty cart no sequence of actions stores a quantity below one or a repeated key. */
  lemma ReachableIsValid(actions: seq<Action>)
    ensures Valid(Run([], actions))
  {
    RunKeepsValid([], actions);
  }
}
