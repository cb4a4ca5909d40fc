/** The rows the dashboard keeps per user and the valued-asset rows it
    derives from them, with the sums taken over them. */
module Records {

  datatype Option<T> = None | Some(value: T)

  /** A row of the US_Stocks or TW_Stocks sheet:
      代號, 名稱, 股數, 類別, 自訂價格, 參考市價. */
  datatype Holding = Holding(
    code: string,
    name: string,
    shares: real,
    category: string,
    customPrice: real,
    marketPrice: real)

  /** A row of the Fixed_Assets sheet: 資產項目, 現值, 類別. */
  datatype FixedAsset = FixedAsset(item: string, value: real, category: string)

  /** A row of the Liabilities sheet: 負債項目, 金額, 每月扣款. */
  datatype Liability = Liability(item: string, amount: real, monthly: real)

  /** A row of the derived asset table: 資產, 類別, 價值 (in TWD). */
  datatype ValuedAsset = ValuedAsset(name: string, category: string, value: real)

  const CategoryUS: string := "美股"
  const CategoryTW: string := "台股"

  function ValueOf(a: ValuedAsset): real { a.value }

  /** Sum of f over the rows, added up from the first row to the last. */
  function Sum(s: seq<ValuedAsset>, f: ValuedAsset -> real): real
    decreases |s|
  {
    if s == [] then 0.0 else Sum(s[..|s| - 1], f) + f(s[|s| - 1])
  }

  /** The 價值 column summed. */
  function TotalValue(s: seq<ValuedAsset>): real
  {
    Sum(s, ValueOf)
  }

  lemma {:induction false} SumAppend(a: seq<ValuedAsset>, b: seq<ValuedAsset>, f: ValuedAsset -> real)
    ensures Sum(a + b, f) == Sum(a, f) + Sum(b, f)
    decreases |b|
  {
    if b == [] {
      assert a + b == a;
    } else {
      assert (a + b)[..|a + b| - 1] == a + b[..|b| - 1];
      SumAppend(a, b[..|b| - 1], f);
    }
  }

  /** A sum does not depend on the order of the rows. */
  lemma {:induction false} SumPermutation(a: seq<ValuedAsset>, b: seq<ValuedAsset>, f: ValuedAsset -> real)
    requires multiset(a) == multiset(b)
    ensures Sum(a, f) == Sum(b, f)
    decreases |a|
  {
    if a == [] {
      assert |b| == |multiset(b)| == 0;
    } else {
      var x := a[|a| - 1];
      var a' := a[..|a| - 1];
      assert a == a' + [x];
      assert x in multiset(b) by { assert x in multiset(a); }
      var k :| 0 <= k < |b| && b[k] == x;
      var b' := b[..k] + b[k + 1..];
      assert b == b[..k] + [x] + b[k + 1..];
      assert multiset(b) == multiset(b') + multiset{x} by {
        assert multiset(b) == multiset(b[..k]) + multiset{x} + multiset(b[k + 1..]);
      }
      assert multiset(a) == multiset(a') + multiset{x};
      assert multiset(a') == multiset(a) - multiset{x};
      assert multiset(b') == multiset(b) - multiset{x};
      SumPermutation(a', b', f);
      SumAppend(b[..k] + [x], b[k + 1..], f);
      SumAppend(b[..k], [x], f);
      SumAppend(b[..k], b[k + 1..], f);
      assert Sum([x], f) == f(x) by { assert [x][..0] == []; }
    }
  }

  /** Summing two parts of a column is summing the column. */
  lemma {:induction false} SumOfParts(s: seq<ValuedAsset>, f: ValuedAsset -> real, g: ValuedAsset -> real, h: ValuedAsset -> real)
    requires forall a :: h(a) == f(a) + g(a)
    ensures Sum(s, f) + Sum(s, g) == Sum(s, h)
    decreases |s|
  {
    if s != [] {
      SumOfParts(s[..|s| - 1], f, g, h);
    }
  }

  /** Rows whose values are all positive sum to a positive total exactly
      when there is at least one row, and never to a negative one. */
  lemma {:induction false} TotalOfPositives(s: seq<ValuedAsset>)
    requires forall a :: a in s ==> a.value > 0.0
    ensures TotalValue(s) >= 0.0
    ensures TotalValue(s) > 0.0 <==> s != []
    decreases |s|
  {
    if s != [] {
      assert forall a :: a in s[..|s| - 1] ==> a in s;
      TotalOfPositives(s[..|s| - 1]);
      assert s[|s| - 1] in s;
    }
  }
}
