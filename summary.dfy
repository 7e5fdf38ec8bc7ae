/** `getOrderSummary`: the portions of the cart added up per display name. The page keeps the
    result in a plain JavaScript object, whose keys remember the order they were first written
    in; `Object.entries` later reads them back in that order. */
module Summary {
  import opened Cart

  /** A JavaScript object used as a dictionary: its keys in insertion order and the value under each. */
  datatype Dict = Dict(keys: seq<string>, values: map<string, int>)

  /** Every key has a value, so `Object.entries` can read them all. */
  predicate KeysHaveValues(d: Dict) {
    forall k | k in d.keys :: k in d.values
  }

  /** The keys are distinct and are exactly the names that have a value. */
  predicate WellFormed(d: Dict) {
    && (forall i, j | 0 <= i < j < |d.keys| :: d.keys[i] != d.keys[j])
    && (forall k | k in d.values :: k in d.keys)
    && KeysHaveValues(d)
  }

  /** `summary[name] = (summary[name] || 0) + quantity`: a new name is written last. */
  function Bump(d: Dict, name: string, quantity: int): Dict {
    if name in d.values then Dict(d.keys, d.values[name := d.values[name] + quantity])
    else Dict(d.keys + [name], d.values[name := quantity])
  }

  /** The dictionary after the `forEach` has visited every line of the cart in order. */
  function SummaryOf(cart: CartLines): (d: Dict)
    ensures KeysHaveValues(d)
    ensures forall k | k in d.values :: k in NamesOf(cart)
    decreases |cart|
  {
    if cart == [] then Dict([], map[])
    else
      var last := cart[|cart| - 1];
      Bump(SummaryOf(cart[..|cart| - 1]), last.name, last.quantity)
  }

  /** `Object.entries(summary)`: the (name, quantity) pairs in key order. */
  function Entries(d: Dict): seq<(string, int)>
    requires KeysHaveValues(d)
  {
    seq(|d.keys|, i requires 0 <= i < |d.keys| => (d.keys[i], d.values[d.keys[i]]))
  }

  function SumQuantities(es: seq<(string, int)>): int
    decreases |es|
  {
    if es == [] then 0 else es[0].1 + SumQuantities(es[1..])
  }

  // Reference definitions read off the cart directly.

  /** The display names of the lines, in cart order. */
  function NamesOf(cart: CartLines): (names: seq<string>)
    ensures |names| == |cart| && forall i | 0 <= i < |cart| :: names[i] == cart[i].name
    decreases |cart|
  {
    if cart == [] then [] else NamesOf(cart[..|cart| - 1]) + [cart[|cart| - 1].name]
  }

  /** The portions on the lines carrying `name`. */
  function QuantityNamed(cart: CartLines, name: string): int
    decreases |cart|
  {
    if cart == [] then 0
    else
      var last := cart[|cart| - 1];
      QuantityNamed(cart[..|cart| - 1], name) + (if last.name == name then last.quantity else 0)
  }

  /** Where `x` first occurs in `s`. */
  function FirstIndex(s: seq<string>, x: string): (k: nat)
    requires x in s
    ensures k < |s| && s[k] == x && x !in s[..k]
    decreases |s|
  {
    if s[0] == x then 0 else 1 + FirstIndex(s[1..], x)
  }

  /** The keys that occur in `names` come in the order of their first occurrence there. */
  ghost predicate InFirstOrder(keys: seq<string>, names: seq<string>) {
    forall i, j | 0 <= i < j < |keys| && keys[i] in names && keys[j] in names ::
      FirstIndex(names, keys[i]) < FirstIndex(names, keys[j])
  }

  /** The loop that fills the dictionary, one cart line at a time. */
  method GetOrderSummary(cart: CartLines) returns (summary: Dict)
    ensures summary == SummaryOf(cart)
    ensures Summarizes(cart, summary)
  {
    var keys: seq<string> := [];
    var values: map<string, int> := map[];
    for i := 0 to |cart|
      invariant Dict(keys, values) == SummaryOf(cart[..i])
    {
      assert cart[..i + 1][..i] == cart[..i] && cart[..i + 1][i] == cart[i];
      var item := cart[i];
      var itemName := item.name;
      if itemName in values {
        values := values[itemName := values[itemName] + item.quantity];
      } else {
        keys := keys + [itemName];
        values := values[itemName := item.quantity];
      }
    }
    assert cart[..|cart|] == cart;
    summary := Dict(keys, values);
    SummaryMeaning(cart);
  }

  /** What the page promises of its order summary: distinct keys that are exactly the cart's names,
      in order of first occurrence, each with the portions of its lines, adding up to the total. */
  ghost predicate Summarizes(cart: CartLines, d: Dict) {
    && WellFormed(d)
    && (forall k :: k in d.values <==> k in NamesOf(cart))
    && (forall k | k in d.values :: d.values[k] == QuantityNamed(cart, k))
    && InFirstOrder(d.keys, NamesOf(cart))
    && SumQuantities(Entries(d)) == TotalItems(cart)
  }

  lemma SummaryMeaning(cart: CartLines)
    ensures Summarizes(cart, SummaryOf(cart))
  {
    SummaryWellFormed(cart);
    SummaryKeys(cart);
    SummaryCounts(cart);
    SummaryOrder(cart);
    SummaryTotal(cart);
  }

  // What the summary means.

  /** The dictionary the loop builds is well formed. */
  lemma {:induction false} SummaryWellFormed(cart: CartLines)
    ensures WellFormed(SummaryOf(cart))
    decreases |cart|
  {
    if cart != [] {
      SummaryWellFormed(cart[..|cart| - 1]);
    }
  }

  /** The keys are exactly the names on the cart's lines. */
  lemma {:induction false} SummaryKeys(cart: CartLines)
    ensures forall k :: k in SummaryOf(cart).values <==> k in NamesOf(cart)
    decreases |cart|
  {
    if cart != [] {
      var prefix := cart[..|cart| - 1];
      SummaryKeys(prefix);
      assert NamesOf(cart) == NamesOf(prefix) + [cart[|cart| - 1].name];
    }
  }

  /** Each name maps to the sum of the quantities of the lines with that name. */
  lemma {:induction false} SummaryCounts(cart: CartLines)
    ensures forall k | k in SummaryOf(cart).values :: SummaryOf(cart).values[k] == QuantityNamed(cart, k)
    decreases |cart|
  {
    if cart != [] {
      var prefix := cart[..|cart| - 1];
      SummaryCounts(prefix);
      SummaryKeys(prefix);
      SummaryWellFormed(prefix);
      forall k | k in SummaryOf(cart).values ensures SummaryOf(cart).values[k] == QuantityNamed(cart, k) {
        if k !in SummaryOf(prefix).values {
          QuantityNamedAbsent(prefix, k);
        }
      }
    }
  }

  /** A name on no line has no portions. */
  lemma {:induction false} QuantityNamedAbsent(cart: CartLines, name: string)
    requires name !in NamesOf(cart)
    ensures QuantityNamed(cart, name) == 0
    decreases |cart|
  {
    if cart != [] {
      var prefix := cart[..|cart| - 1];
      assert NamesOf(cart) == NamesOf(prefix) + [cart[|cart| - 1].name];
      QuantityNamedAbsent(prefix, name);
    }
  }

  /** The keys are in order of the names' first occurrence in the cart. */
  lemma {:induction false} SummaryOrder(cart: CartLines)
    ensures InFirstOrder(SummaryOf(cart).keys, NamesOf(cart))
    decreases |cart|
  {
    if cart != [] {
      var prefix := cart[..|cart| - 1];
      var name := cart[|cart| - 1].name;
      var before := SummaryOf(prefix);
      SummaryOrder(prefix);
      SummaryKeys(prefix);
      assert NamesOf(cart) == NamesOf(prefix) + [name];
      if name in before.values {
        OrderAfterRepeat(before.keys, NamesOf(prefix), name);
      } else {
        OrderAfterNew(before.keys, NamesOf(prefix), name);
      }
    }
  }

  /** A name seen again leaves the first occurrences of the earlier names where they were. */
  lemma OrderAfterRepeat(keys: seq<string>, names: seq<string>, x: string)
    requires InFirstOrder(keys, names)
    requires forall k | k in keys :: k in names
    ensures InFirstOrder(keys, names + [x])
  {
    forall k | k in keys ensures k in names + [x] && FirstIndex(names + [x], k) == FirstIndex(names, k) {
      FirstIndexAppend(names, x, k);
    }
  }

  /** A name seen for the first time goes after every earlier key. */
  lemma OrderAfterNew(keys: seq<string>, names: seq<string>, x: string)
    requires InFirstOrder(keys, names)
    requires forall k | k in keys :: k in names
    requires x !in names
    ensures InFirstOrder(keys + [x], names + [x])
  {
    OrderAfterRepeat(keys, names, x);
    FirstIndexLast(names, x);
    var ks := keys + [x];
    forall i, j | 0 <= i < j < |ks| && ks[i] in names + [x] && ks[j] in names + [x]
      ensures FirstIndex(names + [x], ks[i]) < FirstIndex(names + [x], ks[j])
    {
      assert ks[i] == keys[i];
      if j < |keys| {
        assert ks[j] == keys[j];
      }
    }
  }

  lemma {:induction false} FirstIndexAppend(s: seq<string>, x: string, y: string)
    requires y in s
    ensures FirstIndex(s + [x], y) == FirstIndex(s, y)
    decreases |s|
  {
    if s[0] != y {
      assert (s + [x])[1..] == s[1..] + [x];
      FirstIndexAppend(s[1..], x, y);
    }
  }

  lemma FirstIndexLast(s: seq<string>, x: string)
    requires x !in s
    ensures FirstIndex(s + [x], x) == |s|
  {
  }

  /** The quantities of the summary add up to the cart's total. */
  lemma {:induction false} SummaryTotal(cart: CartLines)
    ensures SumQuantities(Entries(SummaryOf(cart))) == TotalItems(cart)
    decreases |cart|
  {
    if cart != [] {
      var prefix := cart[..|cart| - 1];
      var last := cart[|cart| - 1];
      var before := SummaryOf(prefix);
      SummaryTotal(prefix);
      SummaryWellFormed(prefix);
      SumBump(before, last.name, last.quantity);
      TotalLast(cart);
    } else {
      assert Entries(SummaryOf(cart)) == [];
    }
  }

  /** Every write to the dictionary adds its quantity to the sum of the entries. */
  lemma SumBump(d: Dict, name: string, quantity: int)
    requires WellFormed(d)
    ensures SumQuantities(Entries(Bump(d, name, quantity))) == SumQuantities(Entries(d)) + quantity
  {
    if name in d.values {
      var i :| 0 <= i < |d.keys| && d.keys[i] == name;
      EntriesBumpExisting(d, i, quantity);
      SumReplace(Entries(d), i, (name, d.values[name] + quantity));
    } else {
      EntriesBumpNew(d, name, quantity);
      SumAppend(Entries(d), [(name, quantity)]);
    }
  }

  /** Adding to a key already present changes that one entry in place. */
  lemma EntriesBumpExisting(d: Dict, i: int, quantity: int)
    requires WellFormed(d)
    requires 0 <= i < |d.keys|
    ensures Bump(d, d.keys[i], quantity).keys == d.keys
    ensures Entries(Bump(d, d.keys[i], quantity)) == Entries(d)[i := (d.keys[i], d.values[d.keys[i]] + quantity)]
  {
    var name := d.keys[i];
    var after := Bump(d, name, quantity);
    assert after == Dict(d.keys, d.values[name := d.values[name] + quantity]);
    var want := Entries(d)[i := (name, d.values[name] + quantity)];
    forall j | 0 <= j < |d.keys| ensures Entries(after)[j] == want[j] {
      if j != i {
        assert d.keys[j] != name;
      }
    }
  }

  /** A new key adds one entry at the end. */
  lemma EntriesBumpNew(d: Dict, name: string, quantity: int)
    requires WellFormed(d)
    requires name !in d.values
    ensures Entries(Bump(d, name, quantity)) == Entries(d) + [(name, quantity)]
  {
    var after := Bump(d, name, quantity);
    var want := Entries(d) + [(name, quantity)];
    forall j | 0 <= j < |after.keys| ensures Entries(after)[j] == want[j] {
      if j < |d.keys| {
        assert after.keys[j] == d.keys[j] && d.keys[j] != name;
      }
    }
  }

  lemma {:induction false} SumAppend(a: seq<(string, int)>, b: seq<(string, int)>)
    ensures SumQuantities(a + b) == SumQuantities(a) + SumQuantities(b)
    decreases |a|
  {
    if a == [] {
      assert a + b == b;
    } else {
      SumAppend(a[1..], b);
      assert (a + b)[1..] == a[1..] + b;
    }
  }

  lemma {:induction false} SumReplace(es: seq<(string, int)>, i: int, e: (string, int))
    requires 0 <= i < |es|
    ensures SumQuantities(es[i := e]) == SumQuantities(es) - es[i].1 + e.1
    decreases |es|
  {
    if i > 0 {
      SumReplace(es[1..], i - 1, e);
      assert es[i := e][1..] == es[1..][i - 1 := e];
    }
  }
}
