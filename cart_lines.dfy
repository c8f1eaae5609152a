/** The value view of a cart: one `Line` per cart item, in collection order.
    The cart's derived totals (`Cart::getTotalQuantity`,
    `Cart::getTotalPrice`) and its merge-on-add rule (`Cart::addItem`) are
    stated here on plain values; the `Entity.Cart` class is proved to follow
    them. Prices are whole cents. */
module CartLines {
  import opened Collections

  /** What one cart item contributes: its product's id and unit price, and
      its quantity. */
  datatype Line = Line(productId: int, unitPrice: int, quantity: int)

  function Quantity(l: Line): int {
    l.quantity
  }

  /** `CartItem::getTotal`: unit price times quantity. */
  function LineTotal(l: Line): int {
    l.unitPrice * l.quantity
  }

  /** The sum of `f` over the lines. */
  function Sum(lines: seq<Line>, f: Line -> int): int {
    if lines == [] then 0 else f(lines[0]) + Sum(lines[1..], f)
  }

  /** The number of units in the cart. */
  function TotalQuantity(lines: seq<Line>): int {
    Sum(lines, Quantity)
  }

  /** The price of the cart. */
  function TotalPrice(lines: seq<Line>): int {
    Sum(lines, LineTotal)
  }

  /** The product id of every line, in order. */
  function ProductIds(lines: seq<Line>): (ids: seq<int>)
    ensures |ids| == |lines|
    ensures forall k :: 0 <= k < |lines| ==> ids[k] == lines[k].productId
  {
    seq(|lines|, k requires 0 <= k < |lines| => lines[k].productId)
  }

  /** The cart holds at most one line per product. */
  predicate UniqueProducts(lines: seq<Line>) {
    Distinct(ProductIds(lines))
  }

  /** `x` folded into `l`: the quantities add up, everything else is `l`'s. */
  function Merge(l: Line, x: Line): (m: Line)
    ensures m.productId == l.productId && m.unitPrice == l.unitPrice
    ensures m.quantity == l.quantity + x.quantity
  {
    l.(quantity := l.quantity + x.quantity)
  }

  /** The effect of `Cart::addItem` on the lines: an incoming line whose
      product is already present is merged into the first line for that
      product; otherwise it is appended. */
  function AddLine(lines: seq<Line>, x: Line): seq<Line>
  {
    if lines == [] then [x]
    else if lines[0].productId == x.productId then [Merge(lines[0], x)] + lines[1..]
    else [lines[0]] + AddLine(lines[1..], x)
  }

  /** `AddLine` as the search loop of `Cart::addItem` computes it: when the
      first `i` lines are for other products, the result is decided at
      line `i` — merged there if it is for `x`'s product, appended after
      the last line if there is none left. */
  lemma {:induction false} AddLineAt(lines: seq<Line>, x: Line, i: nat)
    requires i <= |lines|
    requires forall j :: 0 <= j < i ==> lines[j].productId != x.productId
    ensures i < |lines| && lines[i].productId == x.productId ==>
      AddLine(lines, x) == lines[i := Merge(lines[i], x)]
    ensures i == |lines| ==> AddLine(lines, x) == lines + [x]
  {
    if i > 0 {
      AddLineAt(lines[1..], x, i - 1);
      assert lines == [lines[0]] + lines[1..];
    }
  }

  /** Sums distribute over concatenation. */
  lemma {:induction false} SumAppend(a: seq<Line>, b: seq<Line>, f: Line -> int)
    ensures Sum(a + b, f) == Sum(a, f) + Sum(b, f)
  {
    if a == [] {
      assert a + b == b;
    } else {
      assert (a + b)[1..] == a[1..] + b;
      SumAppend(a[1..], b, f);
    }
  }

  /** Replacing one line changes the sum by the difference of the two lines. */
  lemma {:induction false} SumUpdate(lines: seq<Line>, k: nat, l: Line, f: Line -> int)
    requires k < |lines|
    ensures Sum(lines[k := l], f) == Sum(lines, f) - f(lines[k]) + f(l)
  {
    if k > 0 {
      assert lines[k := l][1..] == lines[1..][k - 1 := l];
      SumUpdate(lines[1..], k - 1, l, f);
    }
  }

  /** Dropping one line lowers the sum by that line's share. */
  lemma SumRemoveAt(lines: seq<Line>, k: nat, f: Line -> int)
    requires k < |lines|
    ensures Sum(lines[..k] + lines[k + 1..], f) == Sum(lines, f) - f(lines[k])
  {
    assert lines == lines[..k] + ([lines[k]] + lines[k + 1..]);
    SumAppend(lines[..k], [lines[k]] + lines[k + 1..], f);
    SumAppend([lines[k]], lines[k + 1..], f);
    SumAppend(lines[..k], lines[k + 1..], f);
  }

  /** Adding a line, merged or appended, raises the total quantity by exactly
      the incoming quantity. */
  lemma {:induction false} AddLineTotalQuantity(lines: seq<Line>, x: Line)
    ensures TotalQuantity(AddLine(lines, x)) == TotalQuantity(lines) + x.quantity
  {
    if lines != [] {
      var r := AddLine(lines, x);
      if lines[0].productId == x.productId {
        assert r[0] == Merge(lines[0], x) && r[1..] == lines[1..];
      } else {
        assert r[0] == lines[0] && r[1..] == AddLine(lines[1..], x);
        AddLineTotalQuantity(lines[1..], x);
      }
    } else {
      assert AddLine(lines, x)[1..] == [];
    }
  }

  /** Every line of product `x.productId` already carries `x`'s unit price
      (the lines of one product share one product record). */
  predicate PricedAlike(lines: seq<Line>, x: Line) {
    forall l :: l in lines && l.productId == x.productId ==> l.unitPrice == x.unitPrice
  }

  /** When prices agree, adding a line raises the total price by the
      incoming line's total. */
  lemma {:induction false} AddLineTotalPrice(lines: seq<Line>, x: Line)
    requires PricedAlike(lines, x)
    ensures TotalPrice(AddLine(lines, x)) == TotalPrice(lines) + LineTotal(x)
  {
    if lines != [] {
      var r := AddLine(lines, x);
      var l := lines[0];
      if l.productId == x.productId {
        assert r[0] == Merge(l, x) && r[1..] == lines[1..];
        assert l in lines;
        assert LineTotal(Merge(l, x)) == l.unitPrice * l.quantity + x.unitPrice * x.quantity by {
          assert l.unitPrice * (l.quantity + x.quantity)
            == l.unitPrice * l.quantity + l.unitPrice * x.quantity;
        }
      } else {
        assert r[0] == l && r[1..] == AddLine(lines[1..], x);
        assert PricedAlike(lines[1..], x) by {
          forall m | m in lines[1..] ensures m in lines { }
        }
        AddLineTotalPrice(lines[1..], x);
      }
    } else {
      assert AddLine(lines, x)[1..] == [];
    }
  }

  /** Adding keeps the product ids in order and adds `x`'s id at the end
      exactly when it was not there before. */
  lemma {:induction false} AddLineProductIds(lines: seq<Line>, x: Line)
    ensures x.productId in ProductIds(lines) ==> ProductIds(AddLine(lines, x)) == ProductIds(lines)
    ensures x.productId !in ProductIds(lines) ==>
      ProductIds(AddLine(lines, x)) == ProductIds(lines) + [x.productId]
  {
    if lines != [] {
      var r := AddLine(lines, x);
      var ids := ProductIds(lines);
      if lines[0].productId == x.productId {
        assert ProductIds(r) == ids;
        assert ids[0] == x.productId;
      } else {
        AddLineProductIds(lines[1..], x);
        var rest := ProductIds(lines[1..]);
        assert ids == [lines[0].productId] + rest;
        assert ProductIds(r) == [lines[0].productId] + ProductIds(AddLine(lines[1..], x));
      }
    }
  }

  /** The merge rule keeps a cart with one line per product that way. */
  lemma AddLineKeepsUnique(lines: seq<Line>, x: Line)
    requires UniqueProducts(lines)
    ensures UniqueProducts(AddLine(lines, x))
  {
    AddLineProductIds(lines, x);
    var ids := ProductIds(lines);
    if x.productId !in ids {
      var r := ids + [x.productId];
      forall i, j | 0 <= i < j < |r| ensures r[i] != r[j] {
        if j == |ids| {
          assert r[i] == ids[i] && ids[i] in ids;
        } else {
          assert r[i] == ids[i] && r[j] == ids[j];
        }
      }
    }
  }

  /** Adding product P with quantity 2 and then again with quantity 3 leaves
      exactly one line for P, with quantity 5. */
  lemma MergeLaw(p: int, price: int)
    ensures AddLine(AddLine([], Line(p, price, 2)), Line(p, price, 3)) == [Line(p, price, 5)]
  {
    assert AddLine([], Line(p, price, 2)) == [Line(p, price, 2)];
  }

  /** Two lines at 10.00 x 2 and 5.00 x 1 cost 25.00 together. */
  lemma TotalPriceExample()
    ensures TotalPrice(AddLine(AddLine([], Line(1, 1000, 2)), Line(2, 500, 1))) == 2500
  {
    var once := AddLine([], Line(1, 1000, 2));
    assert once == [Line(1, 1000, 2)];
    var twice := AddLine(once, Line(2, 500, 1));
    assert twice == [Line(1, 1000, 2), Line(2, 500, 1)];
    assert twice[1..][1..] == [];
  }
}
