/** The page component `Home`: its two pieces of state (the cart and the chosen delivery time),
    the actions that replace them, and the submit button's handler with the alert text it builds. */
module Page {
  import opened Wrappers
  import opened Decimal
  import opened Text
  import opened Cart
  import opened Summary

  /** The alert shown when no delivery time has been chosen ("please choose a delivery time"). */
  const MissingTimeAlert: string := "請選擇送餐時間"

  /** `${item}: ${qty}份`: one line of the order details ("份" counts portions). */
  function RenderEntry(e: (string, int)): string {
    e.0 + ": " + IntToString(e.1) + "份"
  }

  function RenderEntries(es: seq<(string, int)>): (lines: seq<string>)
    ensures |lines| == |es| && forall i | 0 <= i < |es| :: lines[i] == RenderEntry(es[i])
    decreases |es|
  {
    if es == [] then [] else [RenderEntry(es[0])] + RenderEntries(es[1..])
  }

  /** `Object.entries(summary).map(...).join('\n')`. */
  function OrderDetails(d: Dict): string
    requires KeysHaveValues(d)
  {
    Join(RenderEntries(Entries(d)), '\n')
  }

  /** The confirmation alert: delivery time, order details and total portions. */
  function OrderAlert(deliveryTime: string, details: string, total: int): string {
    "訂單已送出！\n\n送餐時間: " + deliveryTime + "\n\n訂單內容:\n" + details + "\n\n總計: " + IntToString(total) + "份"
  }

  // Reading the order details back.

  /** Where `c` last occurs in `s`. */
  function LastIndexOf(s: string, c: char): (k: Option<nat>)
    ensures k.Some? ==> k.value < |s| && s[k.value] == c && c !in s[k.value + 1..]
    ensures k.None? <==> c !in s
    decreases |s|
  {
    if s == [] then None
    else if s[|s| - 1] == c then Some(|s| - 1)
    else
      var k := LastIndexOf(s[..|s| - 1], c);
      assert k.Some? ==> s[k.value + 1..] == s[..|s| - 1][k.value + 1..] + [s[|s| - 1]];
      k
  }

  /** Splits a details line at its last colon into the name and the portion count. */
  function ParseEntry(line: string): Option<(string, int)> {
    if |line| == 0 || line[|line| - 1] != '份' then None
    else
      var body := line[..|line| - 1];
      match LastIndexOf(body, ':')
      case None => None
      case Some(k) =>
        if k + 1 < |body| && body[k + 1] == ' ' && IsNumeral(body[k + 2..])
        then Some((body[..k], ParseInt(body[k + 2..])))
        else None
  }

  /** A suffix without `c` does not move the last `c`. */
  lemma {:induction false} LastIndexSkips(s: string, t: string, c: char)
    requires c !in t
    ensures LastIndexOf(s + t, c) == LastIndexOf(s, c)
    decreases |t|
  {
    if t == [] {
      assert s + t == s;
    } else {
      var u := s + t;
      assert u[|u| - 1] == t[|t| - 1];
      assert u[..|u| - 1] == s + t[..|t| - 1];
      assert c !in t[..|t| - 1] by {
        forall x | x in t[..|t| - 1] ensures x in t { }
      }
      LastIndexSkips(s, t[..|t| - 1], c);
    }
  }

  /** A numeral holds neither a colon, a space nor a line break. */
  lemma NumeralChars(numeral: string)
    requires IsNumeral(numeral)
    ensures ':' !in numeral && ' ' !in numeral && '\n' !in numeral
  {
  }

  /** The colon before the count is the last one of the line, whatever the name holds. */
  lemma LastColon(name: string, numeral: string)
    requires ':' !in numeral
    ensures LastIndexOf(name + ": " + numeral, ':') == Some(|name|)
  {
    var head, tail := name + [':'], [' '] + numeral;
    ColonSplit(name, numeral);
    assert (head + tail)[|name|] == ':';
    assert (head + tail)[|head|..] == tail;
    LastIndexAt(head + tail, ':', |name|);
  }

  /** The rendered line split just after its colon. */
  lemma ColonSplit(name: string, numeral: string)
    ensures name + ": " + numeral == (name + [':']) + ([' '] + numeral)
  {
  }

  /** The position of a `c` with no `c` after it is the last one. */
  lemma LastIndexAt(s: string, c: char, i: nat)
    requires i < |s| && s[i] == c && c !in s[i + 1..]
    ensures LastIndexOf(s, c) == Some(i)
  {
    var k := LastIndexOf(s, c);
    assert c in s;
    assert forall j | k.value < j < |s| :: s[j] in s[k.value + 1..];
    assert forall j | i < j < |s| :: s[j] in s[i + 1..];
  }

  lemma ParseRenderEntry(e: (string, int))
    ensures ParseEntry(RenderEntry(e)) == Some(e)
  {
    var numeral := IntToString(e.1);
    ParseIntToString(e.1);
    var line := RenderEntry(e);
    var body := e.0 + ": " + numeral;
    assert line == body + "份";
    assert line[..|line| - 1] == body;
    NumeralChars(numeral);
    LastColon(e.0, numeral);
    assert body[|e.0| + 2..] == numeral;
    assert body[..|e.0|] == e.0;
  }

  /** When no name on the cart holds a line break, the details text splits back into one line per
      summary entry, and each line reads back as that entry. */
  lemma OrderDetailsReadBack(cart: CartLines)
    requires cart != []
    requires forall i | 0 <= i < |cart| :: '\n' !in cart[i].name
    ensures var es := Entries(SummaryOf(cart));
      var lines := Split(OrderDetails(SummaryOf(cart)), '\n');
      |lines| == |es| && forall i | 0 <= i < |es| :: ParseEntry(lines[i]) == Some(es[i])
  {
    var d := SummaryOf(cart);
    var es := Entries(d);
    var rendered := RenderEntries(es);
    assert |d.keys| >= 1 by {
      SummaryWellFormed(cart);
      SummaryKeys(cart);
      assert cart[0].name in NamesOf(cart);
    }
    forall i | 0 <= i < |rendered| ensures '\n' !in rendered[i] {
      assert '\n' !in es[i].0 by {
        SummaryKeys(cart);
        assert d.keys[i] in d.values;
        var j :| 0 <= j < |cart| && NamesOf(cart)[j] == d.keys[i];
      }
      RenderedLineHasNoBreak(es[i]);
    }
    SplitJoin(rendered, '\n');
    forall i | 0 <= i < |es| ensures ParseEntry(rendered[i]) == Some(es[i]) {
      ParseRenderEntry(es[i]);
    }
  }

  lemma RenderedLineHasNoBreak(e: (string, int))
    requires '\n' !in e.0
    ensures '\n' !in RenderEntry(e)
  {
    var numeral := IntToString(e.1);
    ParseIntToString(e.1);
    NumeralChars(numeral);
    assert RenderEntry(e) == e.0 + ": " + numeral + "份";
  }

  /** What a click on the submit button does: which alert it shows. */
  datatype SubmitResult = Rejected(alert: string) | Sent(alert: string)

  class Home {
    var cart: CartLines
    var deliveryTime: string

    /** The cart invariant, kept by every action. */
    ghost predicate Valid()
      reads this
    {
      Cart.Valid(cart)
    }

    /** `useState<OrderItem[]>([])` and `useState<string>('')`. */
    constructor ()
      ensures Valid()
      ensures cart == [] && deliveryTime == ""
    {
      cart := [];
      deliveryTime := "";
    }

    method AddToCart(item: CatalogItem, kind: Kind)
      requires Valid()
      modifies this
      ensures Valid()
      ensures cart == Cart.AddToCart(old(cart), item, kind)
      ensures TotalItems(cart) == TotalItems(old(cart)) + 1
      ensures deliveryTime == old(deliveryTime)
    {
      AddToCartKeepsValid(cart, item, kind);
      AddToCartTotal(cart, item, kind);
      cart := Cart.AddToCart(cart, item, kind);
    }

    method RemoveFromCart(id: int, kind: Kind)
      requires Valid()
      modifies this
      ensures Valid()
      ensures cart == Cart.RemoveFromCart(old(cart), id, kind)
      ensures deliveryTime == old(deliveryTime)
    {
      RemoveKeepsValid(cart, id, kind);
      cart := Cart.RemoveFromCart(cart, id, kind);
    }

    method UpdateQuantity(id: int, kind: Kind, quantity: int)
      requires Valid()
      modifies this
      ensures Valid()
      ensures cart == Cart.UpdateQuantity(old(cart), id, kind, quantity)
      ensures deliveryTime == old(deliveryTime)
    {
      if quantity <= 0 {
        RemoveFromCart(id, kind);
        return;
      }
      UpdateKeepsValid(cart, id, kind, quantity);
      cart := SetQuantity(cart, id, kind, quantity);
    }

    /** The delivery-time `<select>`'s `onChange`. */
    method SetDeliveryTime(time: string)
      modifies this
      ensures deliveryTime == time
      ensures cart == old(cart)
    {
      deliveryTime := time;
    }

    /** The submit button's `onClick`. It reads the state and changes none of it. */
    method Submit() returns (result: SubmitResult)
      ensures result.Rejected? <==> deliveryTime == ""
      ensures result.Rejected? ==> result.alert == MissingTimeAlert
      ensures result.Sent? ==>
        result.alert == OrderAlert(deliveryTime, OrderDetails(SummaryOf(cart)), TotalItems(cart))
    {
      if deliveryTime == "" {
        return Rejected(MissingTimeAlert);
      }
      var summary := GetOrderSummary(cart);
      var orderDetails := OrderDetails(summary);
      result := Sent(OrderAlert(deliveryTime, orderDetails, TotalItems(cart)));
    }
  }
}
