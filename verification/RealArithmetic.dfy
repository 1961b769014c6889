/** The few facts about products of reals that the statistics need.  Products are passed in
    under a name: the solver handles them best when it need not look inside. */
module RealArithmetic {

  function Square(x: real): real { x * x }

  lemma Positive(x: real, y: real, p: real)
    requires x > 0.0 && y > 0.0 && p == x * y
    ensures p > 0.0
  {}

  lemma NonNegative(x: real, y: real, p: real)
    requires x >= 0.0 && y >= 0.0 && p == x * y
    ensures p >= 0.0
  {}

  /** Multiplying by something positive keeps the sign. */
  lemma ScaleSign(s: real, x: real, p: real)
    requires s > 0.0 && p == s * x
    ensures (p > 0.0 <==> x > 0.0) && (p == 0.0 <==> x == 0.0)
  {
    if x > 0.0 {
      Positive(s, x, p);
    } else if x < 0.0 {
      Positive(s, -x, -p);
    }
  }

  lemma SquareSign(x: real)
    ensures Square(x) >= 0.0 && (Square(x) == 0.0 <==> x == 0.0)
  {
    if x < 0.0 {
      Positive(-x, -x, Square(x));
    } else if x > 0.0 {
      Positive(x, x, Square(x));
    }
  }

  lemma ScaleOrder(s: real, x: real, y: real, sx: real, sy: real)
    requires s > 0.0 && sx == s * x && sy == s * y
    ensures sx > sy <==> x > y
    ensures sx == sy <==> x == y
  {
    ScaleSign(s, x - y, sx - sy);
  }

  lemma SquaresKeepOrder(x: real, y: real)
    requires x >= 0.0 && y >= 0.0
    ensures x > y <==> Square(x) > Square(y)
  {
    var p := Square(x) - Square(y);
    assert (x - y) * (x + y) == p;
    if x > y {
      Positive(x - y, x + y, p);
    } else {
      NonNegative(y - x, x + y, -p);
    }
  }

  /** A product distributes over a sum that goes by another name. */
  lemma Distribute(a: real, s: real, x: real, t: real)
    requires t == s + x
    ensures a * t == a * s + a * x
  {}

  lemma SquareOfProduct(a: real, d: real, p: real)
    requires p == a * d
    ensures Square(p) == Square(a) * Square(d)
  {
    assert (a * d) * (a * d) == (a * a) * (d * d);
  }

  lemma SquareOfNegative(x: real, y: real)
    requires x == -y
    ensures Square(x) == Square(y)
  {}

  lemma Quotient(s: real, n: real, m: real)
    requires n != 0.0
    ensures s / n == m <==> s == n * m
  {
    var q := s / n;
    assert n * q == s;
    assert n * (q - m) == n * q - n * m;
    if n * (q - m) == 0.0 {
      assert q - m == 0.0;
    }
  }
}
