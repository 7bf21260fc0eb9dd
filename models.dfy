/**
 The records the services store and return: products, customers, order
 lines and sales orders, and the derived total amount of an order.
 Ids are unbounded integers, prices are reals; the creation timestamp of
 an order is not part of the model.
 */
module Models {

  datatype Option<+T> = None | Some(value: T)

  /** A catalogue entry. Only its stock changes after creation. */
  datatype Product = Product(id: int, name: string, sku: string, unitPrice: real, stockOnHand: int)

  /** A customer record; never changed after creation. */
  datatype Customer = Customer(id: int, companyName: string, contactName: string, email: string, phone: string)

  /** One requested product, its quantity and the price the caller quoted for it. */
  datatype OrderLine = OrderLine(productId: int, quantity: int, unitPrice: real)

  /** An accepted order; its lines are kept in the order they were given. */
  datatype SalesOrder = SalesOrder(id: int, customerId: int, lines: seq<OrderLine>)

  function LineAmount(line: OrderLine): real
  {
    line.unitPrice * line.quantity as real
  }

  /** The sum of price times quantity over the lines, accumulated front to back. */
  function LinesTotal(lines: seq<OrderLine>): real
  {
    if |lines| == 0 then 0.0 else LinesTotal(lines[..|lines| - 1]) + LineAmount(lines[|lines| - 1])
  }

  /** The order's total amount, computed by one pass over its lines. */
  method TotalAmount(order: SalesOrder) returns (total: real)
    ensures total == LinesTotal(order.lines)
  {
    total := 0.0;
    for i := 0 to |order.lines|
      invariant total == LinesTotal(order.lines[..i])
    {
      assert order.lines[..i + 1][..i] == order.lines[..i];
      total := total + LineAmount(order.lines[i]);
    }
    assert order.lines[..|order.lines|] == order.lines;
  }

  /** The total of two runs of lines is the sum of their totals. */
  lemma {:induction false} LinesTotalAppend(a: seq<OrderLine>, b: seq<OrderLine>)
    ensures LinesTotal(a + b) == LinesTotal(a) + LinesTotal(b)
    decreases |b|
  {
    if |b| == 0 {
      assert a + b == a;
    } else {
      var b' := b[..|b| - 1];
      assert (a + b)[..|a + b| - 1] == a + b';
      LinesTotalAppend(a, b');
    }
  }

  /** The total does not depend on where a run of lines is placed. */
  lemma LinesTotalSwap(a: seq<OrderLine>, b: seq<OrderLine>)
    ensures LinesTotal(a + b) == LinesTotal(b + a)
  {
    LinesTotalAppend(a, b);
    LinesTotalAppend(b, a);
  }

  /** Moving one line to another position leaves the total unchanged. */
  lemma LinesTotalMove(a: seq<OrderLine>, line: OrderLine, b: seq<OrderLine>)
    ensures LinesTotal(a + [line] + b) == LinesTotal([line] + a + b)
  {
    LinesTotalAppend(a + [line], b);
    LinesTotalAppend(a, [line]);
    LinesTotalAppend([line] + a, b);
    LinesTotalAppend([line], a);
  }

  /** Taking one line out of a run of lines takes its amount off the total. */
  lemma LinesTotalRemove(before: seq<OrderLine>, line: OrderLine, after: seq<OrderLine>)
    ensures LinesTotal(before + [line] + after) == LinesTotal(before + after) + LineAmount(line)
  {
    LinesTotalMove(before, line, after);
    assert [line] + before + after == [line] + (before + after);
    LinesTotalAppend([line], before + after);
    assert [line][..0] == [];
  }

  /** Reordering the lines of an order, in any way, leaves its total unchanged. */
  lemma {:induction false} LinesTotalPermutation(a: seq<OrderLine>, b: seq<OrderLine>)
    requires multiset(a) == multiset(b)
    ensures LinesTotal(a) == LinesTotal(b)
    decreases |a|
  {
    if |a| == 0 {
      assert |b| == |multiset(b)| == 0;
    } else {
      var x := a[|a| - 1];
      var a' := a[..|a| - 1];
      assert a == a' + [x];
      assert multiset(a') == multiset(a) - multiset{x};
      assert x in multiset(b);
      var k :| 0 <= k < |b| && b[k] == x;
      assert b == b[..k] + [x] + b[k + 1..];
      assert multiset(b[..k] + b[k + 1..]) == multiset(b) - multiset{x};
      LinesTotalRemove(b[..k], x, b[k + 1..]);
      LinesTotalPermutation(a', b[..k] + b[k + 1..]);
    }
  }
}
