/**
 Scaling estimated token categories to the actual input count (context_api.py,
 _scaled_categories), with exact rational scaling and half-even
 rounding. */
module CategoryScaling {

  datatype Categories = Categories(instructions: int, toolDefinitions: int, conversation: int, toolActivity: int)

  function Total(c: Categories): (t: int) {
    c.instructions + c.toolDefinitions + c.conversation + c.toolActivity
  }

  /** round(n / d): to the nearest integer, and to the even one of two equally near. */
  function HalfEven(n: nat, d: nat): (r: nat)
    requires d > 0
  {
    var q, m := n / d, n % d;
    if 2 * m < d || (2 * m == d && q % 2 == 0) then q else q + 1
  }

  /** Whether rounding n / d goes up from a tie. */
  predicate TieRoundedUp(n: nat, d: nat)
    requires d > 0
  {
    2 * (n % d) == d && (n / d) % 2 == 1
  }

  /** Rounding moves by at most a half, and by a half upwards exactly when it rounds a tie up. */
  lemma HalfEvenNear(n: nat, d: nat)
    requires d > 0
    ensures var r := HalfEven(n, d);
            && 2 * n - d <= 2 * (r * d) <= 2 * n + d
            && (2 * (r * d) == 2 * n + d <==> TieRoundedUp(n, d))
            && (2 * (r * d) == 2 * n + d || 2 * (r * d) == 2 * n - d ==> r % 2 == 0)
  {
    var q, m := n / d, n % d;
    assert n == q * d + m;
    assert (q + 1) * d == q * d + d;
  }

  lemma {:induction false} ProductAtLeast(x: nat, k: nat)
    requires x > 0
    ensures x * k >= k
  {
    if x > 1 {
      ProductAtLeast(x - 1, k);
      assert x * k == (x - 1) * k + k;
    }
  }

  lemma CancelFactor(a: int, b: int, k: nat)
    requires k > 0
    ensures a * k <= b * k ==> a <= b
  {
    if a > b {
      var x := a - b;
      ProductAtLeast(x, k);
      assert (b + x) * k == b * k + x * k;
    }
  }

  function Share(tokens: nat, actual: nat, known: nat): (r: nat)
    requires known > 0
  {
    HalfEven(tokens * actual, known)
  }

  /** The rounded shares, with what rounding lost or gained settled on the conversation. */
  function Settled(actual: int, definitions: int, conversation: int, activity: int): (c: Categories) {
    var drift := actual - (definitions + conversation + activity);
    Categories(0, definitions, if conversation + drift < 0 then 0 else conversation + drift, activity)
  }

  function Scaled(actual: int, conversation: nat, toolActivity: nat, toolDefinitions: nat): (c: Categories) {
    var known := conversation + toolActivity + toolDefinitions;
    if actual <= 0 then Categories(0, toolDefinitions, conversation, toolActivity)
    else if known <= actual then Categories(actual - known, toolDefinitions, conversation, toolActivity)
    else Settled(actual, Share(toolDefinitions, actual, known), Share(conversation, actual, known),
                 Share(toolActivity, actual, known))
  }

  /** However the shares were rounded, the conversation absorbs the drift: the total misses the actual count exactly
      when the tool shares alone exceed it. */
  lemma DriftAbsorbed(actual: int, definitions: int, conversation: int, activity: int)
    ensures var c := Settled(actual, definitions, conversation, activity);
            && c.conversation >= 0
            && Total(c) == if definitions + activity > actual then definitions + activity else actual
  {
  }

  lemma SettledKeepsTools(actual: int, definitions: int, conversation: int, activity: int)
    ensures var c := Settled(actual, definitions, conversation, activity);
            c.instructions == 0 && c.toolDefinitions == definitions && c.toolActivity == activity
  {
  }

  /** A share less than one away from the exact quotient. */
  predicate Near(share: int, exact: int, known: int) {
    -known < share * known - exact < known
  }

  lemma Distribute(x: int, y: int, z: int, actual: int)
    ensures x * actual + y * actual + z * actual == actual * (x + y + z)
  {
  }

  lemma ProductAtMost(a: int, b: int, k: nat)
    requires a <= b
    ensures a * k <= b * k
  {
    assert b * k == a * k + (b - a) * k;
  }

  lemma NearIsNonNegative(share: int, exact: nat, known: nat)
    requires Near(share, exact, known)
    ensures share >= 0
  {
    if share < 0 {
      ProductAtMost(share, -1, known);
    }
  }

  lemma TwoNear(a: int, c: int, na: int, nc: int, actual: int, known: nat)
    requires Near(a, na, known) && Near(c, nc, known) && na + nc <= actual * known
    ensures a + c <= actual + 1
  {
    assert (a + c) * known == a * known + c * known;
    assert (actual + 2) * known == actual * known + 2 * known;
    if a + c > actual + 1 {
      ProductAtMost(actual + 2, a + c, known);
    }
  }

  lemma Products(a: nat, b: nat)
    ensures a * b >= 0
  {
  }

  /** With any arithmetic that gets each share to less than one from the exact quotient, a binary floating point scale
      factor included, no category is negative and the total is the actual count or one more. */
  lemma AnyScalingIsClose(actual: nat, conversation: nat, toolActivity: nat, toolDefinitions: nat, defs: int,
                          conv: int, tool: int)
    requires 0 < actual < conversation + toolActivity + toolDefinitions
    requires var known := conversation + toolActivity + toolDefinitions;
             Near(defs, toolDefinitions * actual, known) && Near(conv, conversation * actual, known)
                 && Near(tool, toolActivity * actual, known)
    ensures var c := Settled(actual, defs, conv, tool);
            c.toolDefinitions >= 0 && c.conversation >= 0 && c.toolActivity >= 0 && Total(c) in {actual, actual + 1}
  {
    hide Near, Settled;
    var known := conversation + toolActivity + toolDefinitions;
    Products(toolDefinitions, actual);
    Products(conversation, actual);
    Products(toolActivity, actual);
    NearIsNonNegative(defs, toolDefinitions * actual, known);
    NearIsNonNegative(tool, toolActivity * actual, known);
    Distribute(toolDefinitions, conversation, toolActivity, actual);
    TwoNear(defs, tool, toolDefinitions * actual, toolActivity * actual, actual, known);
    DriftAbsorbed(actual, defs, conv, tool);
    SettledKeepsTools(actual, defs, conv, tool);
  }

  // ------------------------------------------------------ double precision

  /** The reciprocal of the unit roundoff of a double, and the counts this is about. */
  const PRECISION: real := 9007199254740992.0
  const LARGEST: real := 1125899906842624.0

  /** At most a unit roundoff away from an exact value, as a correctly rounded double is. */
  predicate Rounded(x: real, exact: real) {
    (x - exact) * PRECISION <= exact && (exact - x) * PRECISION <= exact
  }

  /** A share as doubles compute it: the scale factor is a rounded quotient, so that times `known` it is close to
      `actual`; the product is rounded; and rounding to an integer moves by at most a half. */
  ghost predicate InDoubles(share: int, product: real, scale: real, tokens: nat, actual: nat, known: nat) {
    && Rounded(Times(scale, known as real), actual as real) && Rounded(product, Times(tokens as real, scale))
    && product - 0.5 <= share as real <= product + 0.5
  }

  /** Multiplication of reals, named so that proofs can treat its results as plain numbers. */
  ghost function Times(a: real, b: real): (r: real) {
    a * b
  }

  lemma TimesMonotone(a: real, b: real, k: real)
    requires a <= b && k >= 0.0
    ensures Times(a, k) <= Times(b, k)
  {
    assert b * k == a * k + (b - a) * k;
  }

  lemma TimesApart(a: real, b: real, n: real, k: real)
    ensures Times((a - b) * n, k) == (Times(a, k) - Times(b, k)) * n
  {
  }

  lemma TimesSum(a: real, b: real, k: real)
    ensures Times(a + b, k) == Times(a, k) + Times(b, k) && Times(a - b, k) == Times(a, k) - Times(b, k)
  {
  }

  lemma Reorder(scale: real, k: real, t: real)
    ensures Times(Times(scale, k), t) == Times(Times(t, scale), k)
  {
  }

  lemma Swap(a: real, b: real)
    ensures Times(a, b) == Times(b, a) && Times(0.0, b) == 0.0
  {
  }

  /** Multiplying by a non-negative number keeps the relative error. */
  lemma RoundedTimes(x: real, exact: real, k: real)
    requires Rounded(x, exact) && k >= 0.0
    ensures Rounded(Times(x, k), Times(exact, k))
  {
    TimesMonotone((x - exact) * PRECISION, exact, k);
    TimesMonotone((exact - x) * PRECISION, exact, k);
    TimesApart(x, exact, PRECISION, k);
    TimesApart(exact, x, PRECISION, k);
    hide Times;
  }

  lemma TwoRoundings(p: real, s: real, a: real)
    requires Rounded(s, a) && Rounded(p, s) && a >= 0.0
    ensures (p - a) * PRECISION <= 3.0 * a && (a - p) * PRECISION <= 3.0 * a
  {
  }

  /** The rounding errors of a share at most as large as the count leave it less than one from the exact one. */
  lemma ErrorsAreSmall(shareTimes: real, productTimes: real, exact: real, k: real, whole: real)
    requires k > 0.0 && 0.0 <= exact <= whole && whole == LARGEST * k
    requires (productTimes - exact) * PRECISION <= 3.0 * exact && (exact - productTimes) * PRECISION <= 3.0 * exact
    requires productTimes - 0.5 * k <= shareTimes <= productTimes + 0.5 * k
    ensures -k < shareTimes - exact < k
  {
  }

  lemma ExactAtMost(t: real, a: real, k: real)
    requires 0.0 <= t <= k && 0.0 <= a <= LARGEST
    ensures 0.0 <= Times(t, a) <= Times(LARGEST, k)
  {
    hide Times;
    TimesMonotone(t, k, a);
    TimesMonotone(0.0, t, a);
    TimesMonotone(a, LARGEST, k);
    Swap(k, a);
    Swap(t, a);
  }

  lemma ShareTimes(share: real, product: real, k: real)
    requires product - 0.5 <= share <= product + 0.5 && k >= 0.0
    ensures Times(product, k) - 0.5 * k <= Times(share, k) <= Times(product, k) + 0.5 * k
  {
    TimesMonotone(product - 0.5, share, k);
    TimesMonotone(share, product + 0.5, k);
    TimesSum(product, 0.5, k);
  }

  lemma LargestTimes(k: real)
    ensures Times(LARGEST, k) == LARGEST * k
  {
  }

  lemma RealShareIsNear(share: real, product: real, scale: real, t: real, a: real, k: real)
    requires 0.0 <= t <= k && k > 0.0 && 0.0 <= a <= LARGEST
    requires Rounded(Times(scale, k), a) && Rounded(product, Times(t, scale)) && product - 0.5 <= share <= product + 0.5
    ensures -k < Times(share, k) - Times(t, a) < k
  {
    hide Rounded, Times;
    RoundedTimes(Times(scale, k), a, t);
    Reorder(scale, k, t);
    Swap(a, t);
    RoundedTimes(product, Times(t, scale), k);
    ExactAtMost(t, a, k);
    TwoRoundings(Times(product, k), Times(Times(t, scale), k), Times(t, a));
    ShareTimes(share, product, k);
    LargestTimes(k);
    ErrorsAreSmall(Times(share, k), Times(product, k), Times(t, a), k, Times(LARGEST, k));
  }

  lemma IntegerTimes(a: int, b: int)
    ensures Times(a as real, b as real) == (a * b) as real
  {
  }

  /** Up to the largest count doubles stay less than one from the exact share. */
  lemma DoublesAreNear(share: int, product: real, scale: real, tokens: nat, actual: nat, known: nat)
    requires tokens <= known && known > 0 && actual as real <= LARGEST
    requires InDoubles(share, product, scale, tokens, actual, known)
    ensures Near(share, tokens * actual, known)
  {
    hide Rounded, Times;
    RealShareIsNear(share as real, product, scale, tokens as real, actual as real, known as real);
    IntegerTimes(share, known);
    IntegerTimes(tokens, actual);
  }

  /** So with doubles, for counts up to 2 to the 50th, the total is the actual count or one more. */
  lemma DoublesAreClose(actual: nat, conversation: nat, toolActivity: nat, toolDefinitions: nat,
                        scale: real, defs: int, conv: int, tool: int, pd: real, pc: real, pt: real)
    requires 0 < actual < conversation + toolActivity + toolDefinitions && actual as real <= LARGEST
    requires var known := conversation + toolActivity + toolDefinitions;
             InDoubles(defs, pd, scale, toolDefinitions, actual, known)
                 && InDoubles(conv, pc, scale, conversation, actual, known)
             && InDoubles(tool, pt, scale, toolActivity, actual, known)
    ensures var c := Settled(actual, defs, conv, tool);
            c.toolDefinitions >= 0 && c.conversation >= 0 && c.toolActivity >= 0 && Total(c) in {actual, actual + 1}
  {
    hide InDoubles, Near, Settled;
    var known := conversation + toolActivity + toolDefinitions;
    DoublesAreNear(defs, pd, scale, toolDefinitions, actual, known);
    DoublesAreNear(conv, pc, scale, conversation, actual, known);
    DoublesAreNear(tool, pt, scale, toolActivity, actual, known);
    AnyScalingIsClose(actual, conversation, toolActivity, toolDefinitions, defs, conv, tool);
  }

  /** When the total overshoots: nothing is conversation and both tool shares are ties that round up. */
  predicate Overshoots(actual: int, conversation: nat, toolActivity: nat, toolDefinitions: nat) {
    var known := conversation + toolActivity + toolDefinitions;
    && 0 < actual < known && conversation == 0
    && TieRoundedUp(toolDefinitions * actual, known) && TieRoundedUp(toolActivity * actual, known)
  }

  /** The two tool shares exceed the actual count only by one, and only when both tie upwards with no conversation. */
  lemma SharesBound(na: nat, nb: nat, nc: nat, k: nat, actual: nat)
    requires k > 0 && na + nb + nc == actual * k
    ensures var s := HalfEven(na, k) + HalfEven(nc, k);
            && s <= actual + 1
            && (s == actual + 1 <==> nb == 0 && TieRoundedUp(na, k) && TieRoundedUp(nc, k))
  {
    hide HalfEven, TieRoundedUp;
    var ra, rc := HalfEven(na, k), HalfEven(nc, k);
    HalfEvenNear(na, k);
    HalfEvenNear(nc, k);
    SumOfTwo(ra * k, rc * k, na, nb, nc, k, actual * k);
    AddTimes(ra, rc, k);
    CompareProducts(ra + rc, actual, k);
  }

  lemma AddTimes(a: int, b: int, k: int)
    ensures a * k + b * k == (a + b) * k
  {
  }

  lemma CompareProducts(r: int, actual: int, k: nat)
    requires k > 0
    ensures r * k <= actual * k + k <==> r <= actual + 1
    ensures r * k == actual * k + k <==> r == actual + 1
  {
    AddTimes(actual, 1, k);
    CancelFactor(r, actual + 1, k);
    CancelFactor(actual + 1, r, k);
    if r < actual + 1 {
      ProductAtMost(r, actual + 1, k);
    }
  }

  /** Two numbers that are each at most half a unit too large. */
  lemma SumOfTwo(pa: int, pc: int, na: int, nb: nat, nc: int, k: nat, whole: int)
    requires na + nb + nc == whole && 2 * pa <= 2 * na + k && 2 * pc <= 2 * nc + k
    ensures pa + pc <= whole + k
    ensures pa + pc == whole + k <==> nb == 0 && 2 * pa == 2 * na + k && 2 * pc == 2 * nc + k
  {
  }

  /** Every category is non-negative and the total is the actual count, or one more exactly when it overshoots. */
  lemma ScaledTotal(actual: int, conversation: nat, toolActivity: nat, toolDefinitions: nat)
    requires actual > 0
    ensures var c := Scaled(actual, conversation, toolActivity, toolDefinitions);
            && c.instructions >= 0 && c.toolDefinitions >= 0 && c.conversation >= 0 && c.toolActivity >= 0
            && Total(c) == actual + (if Overshoots(actual, conversation, toolActivity, toolDefinitions) then 1 else 0)
  {
    hide HalfEven, TieRoundedUp, Settled;
    var known := conversation + toolActivity + toolDefinitions;
    if known > actual {
      var defs, conv := Share(toolDefinitions, actual, known), Share(conversation, actual, known);
      var tool := Share(toolActivity, actual, known);
      DriftAbsorbed(actual, defs, conv, tool);
      SettledKeepsTools(actual, defs, conv, tool);
      ToolSharesBound(actual, conversation, toolActivity, toolDefinitions);
    }
  }

  /** Estimates within the count are kept and the rest is instructions. Otherwise each tool category gets its own share
      of the count, rounded to half even, and the conversation what these two leave. */
  lemma ScaledShares(actual: int, conversation: nat, toolActivity: nat, toolDefinitions: nat)
    ensures var c := Scaled(actual, conversation, toolActivity, toolDefinitions);
            var known := conversation + toolActivity + toolDefinitions;
            if 0 < actual < known then
              && c.instructions == 0
              && IsHalfEven(c.toolDefinitions, toolDefinitions * actual, known)
              && IsHalfEven(c.toolActivity, toolActivity * actual, known)
              && c.conversation == (if c.toolDefinitions + c.toolActivity > actual then 0
                                    else actual - c.toolDefinitions - c.toolActivity)
            else
              && c.conversation == conversation && c.toolActivity == toolActivity
              && c.toolDefinitions == toolDefinitions && c.instructions == if actual <= 0 then 0 else actual - known
  {
    hide HalfEven, IsHalfEven;
    var known := conversation + toolActivity + toolDefinitions;
    if 0 < actual < known {
      Products(toolDefinitions, actual);
      Products(toolActivity, actual);
      HalfEvenIs(toolDefinitions * actual, known);
      HalfEvenIs(toolActivity * actual, known);
    }
  }

  /** The integer nearest to n / d; the even one, when two are equally near. */
  ghost predicate IsHalfEven(r: int, n: int, d: int) {
    && 2 * n - d <= 2 * (r * d) <= 2 * n + d
    && (2 * (r * d) == 2 * n + d || 2 * (r * d) == 2 * n - d ==> r % 2 == 0)
  }

  lemma HalfEvenIs(n: nat, d: nat)
    requires d > 0
    ensures IsHalfEven(HalfEven(n, d), n, d)
  {
    HalfEvenNear(n, d);
    hide HalfEven;
  }

  lemma ToolSharesBound(actual: nat, conversation: nat, toolActivity: nat, toolDefinitions: nat)
    requires 0 < actual < conversation + toolActivity + toolDefinitions
    ensures var known := conversation + toolActivity + toolDefinitions;
            var s := Share(toolDefinitions, actual, known) + Share(toolActivity, actual, known);
            s <= actual + 1 && (s == actual + 1 <==> Overshoots(actual, conversation, toolActivity, toolDefinitions))
  {
    hide HalfEven, TieRoundedUp;
    var known := conversation + toolActivity + toolDefinitions;
    Products(conversation, actual);
    NoProduct(conversation, actual);
    Distribute(toolDefinitions, conversation, toolActivity, actual);
    SharesBound(toolDefinitions * actual, conversation * actual, toolActivity * actual, known, actual);
  }

  lemma NoProduct(a: nat, b: nat)
    requires b > 0
    ensures a * b == 0 <==> a == 0
  {
  }

  /** An overshoot: two activities of two tokens each scaled to three make four. */
  lemma OvershootExample()
    ensures Overshoots(3, 0, 2, 2) && Total(Scaled(3, 0, 2, 2)) == 4
  {
    assert 2 * 3 == 6 && 6 / 4 == 1 && 6 % 4 == 2;
    ScaledTotal(3, 0, 2, 2);
  }
}
