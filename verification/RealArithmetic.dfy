/** The few nonlinear facts about real numbers the statistics rest on. */
module RealArithmetic {

  lemma PositiveProduct(a: real, b: real)
    requires a > 0.0 && b > 0.0
    ensures a * b > 0.0
  {
  }

  function Product(a: real, b: real): real { a * b }

  function Square(z: real): real { Product(z, z) }

  function AsReals(values: seq<int>): seq<real> {
    seq(|values|, i requires 0 <= i < |values| => values[i] as real)
  }

  lemma ProductDistributes(a: real, b: real, k: real)
    ensures Product(a + b, k) == Product(a, k) + Product(b, k)
    ensures Product(k, a + b) == Product(k, a) + Product(k, b)
  {
  }

  lemma ProductCommutes(a: real, b: real)
    ensures Product(a, b) == Product(b, a)
  {
  }

  lemma ProductAssociates(a: real, b: real, c: real)
    ensures Product(Product(a, b), c) == Product(a, Product(b, c))
  {
  }

  lemma SameSignProduct(a: real, b: real)
    requires (a > 0.0 && b > 0.0) || (a < 0.0 && b < 0.0)
    ensures Product(a, b) > 0.0 && Product(a, b) != 0.0
  {
    if a > 0.0 {
      PositiveProduct(a, b);
    } else {
      PositiveProduct(-a, -b);
      assert (-a) * (-b) == a * b;
    }
  }

  lemma SquareSign(z: real)
    ensures Square(z) >= 0.0
    ensures Square(z) == 0.0 <==> z == 0.0
  {
    if z != 0.0 { SameSignProduct(z, z); }
  }

  lemma ScaleMonotone(k: real, a: real, b: real)
    requires k >= 0.0 && a <= b
    ensures k * a <= k * b
  {
    if k > 0.0 && a < b { PositiveProduct(k, b - a); assert k * (b - a) == k * b - k * a; }
  }

  lemma ProductMonotone(k: real, a: real, b: real)
    requires k > 0.0
    ensures a <= b ==> Product(k, a) <= Product(k, b)
    ensures a < b ==> Product(k, a) < Product(k, b)
    ensures Product(k, 0.0) == 0.0
  {
    ProductDistributes(0.0, 0.0, k);
    if a < b {
      ProductDistributes(a, b - a, k);
      assert a + (b - a) == b;
      SameSignProduct(k, b - a);
    }
  }

  lemma QuotientSign(a: real, b: real)
    requires b > 0.0
    ensures (a / b > 0.0 <==> a > 0.0) && (a / b < 0.0 <==> a < 0.0) && (a / b) * b == a
  {
    var q := a / b;
    assert q * b == a;
    if q > 0.0 { PositiveProduct(q, b); }
    if q < 0.0 { PositiveProduct(-q, b); assert (-q) * b == -a; }
  }

  lemma QuotientMonotone(a: real, b: real, c: real)
    requires b > 0.0 && a <= c
    ensures a / b <= c / b
  {
    QuotientSign(c - a, b);
    assert c / b - a / b == (c - a) / b;
  }

  lemma QuotientStrict(a: real, b: real, c: real)
    requires b > 0.0 && a < c
    ensures a / b < c / b
  {
    QuotientSign(c - a, b);
    assert c / b - a / b == (c - a) / b;
  }

  /** Comparing squares compares magnitudes. */
  lemma SquareCompare(n: real, root: real)
    requires root >= 0.0 && n * n <= root * root
    ensures -root <= n <= root
  {
    assert (n - root) * (n + root) == n * n - root * root;
    assert (-n - root) * (-n + root) == n * n - root * root;
    if n > root { PositiveProduct(n - root, n + root); }
    if -n > root { PositiveProduct(-n - root, -n + root); }
  }

  lemma QuotientBound(n: real, root: real)
    requires root > 0.0 && -root <= n <= root
    ensures -1.0 <= n / root <= 1.0
  {
    QuotientMonotone(n, root, root);
    QuotientMonotone(-root, root, n);
    QuotientUnique(root, root, 1.0);
    QuotientUnique(-root, root, -1.0);
  }

  lemma Discriminant(x: real, y: real, n: real)
    requires y > 0.0 && y * y * x - 2.0 * y * n * n + n * n * y >= 0.0
    ensures n * n <= x * y
  {
    assert y * y * x - 2.0 * y * n * n + n * n * y == y * (x * y - n * n);
    if x * y < n * n { PositiveProduct(y, n * n - x * y); }
  }

  lemma ConstantMean(total: real, c: real, n: real)
    requires n > 0.0 && total == c * n
    ensures total / n == c
  {
  }

  lemma QuotientUnique(a: real, b: real, q: real)
    requires b != 0.0 && q * b == a
    ensures a / b == q
  {
  }

  lemma ShrinkingQuotient(a: real, b: real)
    requires a >= 0.0 && b >= 1.0
    ensures 0.0 <= a / b <= a
  {
    QuotientSign(a, b);
    ScaleMonotone(a / b, 1.0, b);
  }

  lemma SumOfShares(x: real, y: real, n: real)
    requires n > 0.0 && x + y <= n
    ensures x / n + y / n <= 1.0
  {
    QuotientMonotone(x + y, n, n);
    QuotientUnique(n, n, 1.0);
    assert x / n + y / n == (x + y) / n;
  }
}
