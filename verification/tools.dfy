/**
  The numeric and bit helpers of the instrument: vector length, the
  radians-to-cycles remap, easing curves, button masks and note names.

  Floating point is modelled by `real`. The library routines the source
  calls (`sqrt`, `atan2` and the constant `PI`) are not written out: they
  are fields of a `Numerics` record whose `Lawful` predicate states the
  only facts the model relies on.
 */
module Tools {

  /** A three-component vector, `[f32; 3]` in the source. */
  datatype Vec3 = Vec3(x: real, y: real, z: real)

  const Origin: Vec3 := Vec3(0.0, 0.0, 0.0)

  /** The floating-point library the source calls into. */
  datatype Numerics = Numerics(pi: real, sqrt: real -> real, atan2: (real, real) -> real)
  {
    /**
      What the model assumes of the library: `pi` is positive, `sqrt` is
      the non-negative square root, zero only at zero, and `atan2(y, x)` lies in [-pi, pi]
      and takes its standard values on the four half-axes.
     */
    ghost predicate Lawful() {
      && 0.0 < pi
      && (forall v: real :: 0.0 <= v ==> 0.0 <= sqrt(v) && sqrt(v) * sqrt(v) == v)
      && (forall v: real :: 0.0 <= v ==> (sqrt(v) == 0.0 <==> v == 0.0))
      && (forall y: real, x: real :: -pi <= atan2(y, x) <= pi)
      && (forall y: real :: 0.0 < y ==> atan2(y, 0.0) == pi / 2.0)
      && (forall y: real :: y < 0.0 ==> atan2(y, 0.0) == -pi / 2.0)
      && (forall x: real :: 0.0 < x ==> atan2(0.0, x) == 0.0)
      && (forall x: real :: x < 0.0 ==> atan2(0.0, x) == pi)
    }
  }

  /** A product of two non-negative numbers is non-negative. */
  lemma MulNonneg(a: real, b: real)
    requires 0.0 <= a && 0.0 <= b
    ensures 0.0 <= a * b
  {
  }

  /** Multiplying both sides by a non-negative factor keeps the order. */
  lemma MulMonotonic(a: real, b: real, c: real)
    requires a <= b && 0.0 <= c
    ensures a * c <= b * c
  {
    MulNonneg(b - a, c);
  }

  /** A square is non-negative, and positive unless its root is zero. */
  lemma Square(a: real)
    ensures 0.0 <= a * a
    ensures a != 0.0 <==> 0.0 < a * a
  {
    if a < 0.0 {
      assert a * a == (-a) * (-a);
    }
  }

  /** The non-negative square root of a non-negative number is unique. */
  lemma SqrtUnique(m: Numerics, v: real, s: real)
    requires m.Lawful()
    requires 0.0 <= s && s * s == v
    ensures m.sqrt(v) == s
  {
    var q := m.sqrt(v);
    assert 0.0 <= q && q * q == v;
    assert (q - s) * (q + s) == q * q - s * s;
    ZeroProduct(q - s, q + s);
  }

  lemma ZeroProduct(a: real, b: real)
    requires a * b == 0.0
    ensures a == 0.0 || b == 0.0
  {
    if a != 0.0 {
      assert b == (a * b) / a;
    }
  }

  /** `hyp`: the Euclidean length of a vector; zero exactly at the origin. */
  function Hyp(m: Numerics, v: Vec3): (r: real)
    requires m.Lawful()
    ensures 0.0 <= r
    ensures r * r == v.x * v.x + v.y * v.y + v.z * v.z
    ensures r == 0.0 <==> v == Origin
  {
    var w := v.x * v.x + v.y * v.y + v.z * v.z;
    SumSquaresZero(v);
    SqrtPositive(m, w);
    m.sqrt(w)
  }

  /** The square root is zero at zero and positive at positive numbers. */
  lemma SqrtPositive(m: Numerics, w: real)
    requires m.Lawful()
    requires 0.0 <= w
    ensures m.sqrt(w) == 0.0 <==> w == 0.0
  {
  }

  /** A sum of three squares is non-negative, and zero only at the origin. */
  lemma SumSquaresZero(v: Vec3)
    ensures 0.0 <= v.x * v.x + v.y * v.y + v.z * v.z
    ensures v.x * v.x + v.y * v.y + v.z * v.z == 0.0 <==> v == Origin
  {
    Square(v.x);
    Square(v.y);
    Square(v.z);
    if v.x * v.x + v.y * v.y + v.z * v.z == 0.0 {
      NonnegSum(v.x * v.x, v.y * v.y, v.z * v.z);
      ZeroProduct(v.x, v.x);
      ZeroProduct(v.y, v.y);
      ZeroProduct(v.z, v.z);
    }
  }

  /** Three non-negative numbers sum to zero only when all three are zero. */
  lemma NonnegSum(p: real, q: real, r: real)
    requires 0.0 <= p && 0.0 <= q && 0.0 <= r
    requires p + q + r == 0.0
    ensures p == 0.0 && q == 0.0 && r == 0.0
  {
  }

  /** Truncation toward zero, Rust's float-to-integer rounding. */
  function Trunc(x: real): (n: int)
    ensures 0.0 <= x ==> n as real <= x < n as real + 1.0
    ensures x < 0.0 ==> n as real - 1.0 < x <= n as real
  {
    if 0.0 <= x then x.Floor else -((-x).Floor)
  }

  /** The least integer at or above `x`. */
  function Ceil(x: real): (n: int)
    ensures x <= n as real < x + 1.0
  {
    -((-x).Floor)
  }

  predicate IsInteger(x: real) {
    x == x.Floor as real
  }

  /**
    Rust's `x % 1.0`: the remainder of truncating division by one, which
    keeps the sign of the dividend.
   */
  function RemOne(x: real): (r: real)
    ensures 0.0 <= x ==> 0.0 <= r < 1.0
    ensures x < 0.0 ==> -1.0 < r <= 0.0
    ensures IsInteger(x - r)
  {
    x - Trunc(x) as real
  }

  /**
    `rad_to_cycles`: turns an `atan2` angle into a fraction of a turn,
    zero at the downward heading and growing clockwise. For every angle
    `atan2` can return the result lies in (0, 1], and it is exactly 1 for
    the upward heading pi/2, because `%` leaves 0 when the dividend is 1.
   */
  function RadToCycles(pi: real, radians: real): (r: real)
    requires 0.0 < pi
    ensures IsInteger(r + TurnFraction(pi, radians))
    ensures -pi <= radians <= pi ==> 0.0 < r <= 1.0
    ensures radians == pi / 2.0 ==> r == 1.0
  {
    var u := TurnFraction(pi, radians);
    TurnFractionFacts(pi, radians);
    var f := RemOne(u);
    assert (1.0 - f) + u == 1.0 + (u - f);
    IntegerShift(u - f);
    1.0 - f
  }

  lemma IntegerShift(x: real)
    requires IsInteger(x)
    ensures IsInteger(1.0 + x)
  {
    assert (1.0 + x).Floor == 1 + x.Floor;
  }

  /** The angle turned a quarter turn on and measured in turns. */
  function TurnFraction(pi: real, radians: real): real
    requires 0.0 < pi
  {
    (radians + pi / 2.0 + pi) / (2.0 * pi)
  }

  /** The dividend of `rad_to_cycles` is non-negative from -pi on, and 1 at pi/2. */
  lemma TurnFractionFacts(pi: real, radians: real)
    requires 0.0 < pi
    ensures -pi <= radians ==> 0.0 <= TurnFraction(pi, radians)
    ensures radians == pi / 2.0 ==> TurnFraction(pi, radians) == 1.0
  {
    var n, d := radians + pi / 2.0 + pi, 2.0 * pi;
    var u := n / d;
    assert u * d == n;
    if -pi <= radians && u < 0.0 {
      MulMonotonic(u, 0.0, d);
      assert false;
    }
    if radians == pi / 2.0 {
      assert (u - 1.0) * d == 0.0;
      ZeroProduct(u - 1.0, d);
    }
  }

  /** The cubic Hermite curve on the unit interval. */
  function SmoothUnit(s: real): real {
    s * s * (3.0 - 2.0 * s)
  }

  /** On [0, 1] the cubic stays within [0, 1]. */
  lemma SmoothUnitBounds(s: real)
    requires 0.0 <= s <= 1.0
    ensures 0.0 <= SmoothUnit(s) <= 1.0
  {
    MulNonneg(s, s);
    MulNonneg(s * s, 3.0 - 2.0 * s);
    var c := 1.0 - s;
    MulNonneg(c, c);
    MulNonneg(c * c, 1.0 + 2.0 * s);
    assert 1.0 - SmoothUnit(s) == c * c * (1.0 + 2.0 * s);
    assert 0.0 <= SmoothUnit(s);
  }

  /** On [0, 1] the cubic never decreases. */
  lemma SmoothUnitMonotonic(a: real, b: real)
    requires 0.0 <= a <= b <= 1.0
    ensures SmoothUnit(a) <= SmoothUnit(b)
  {
    var p, q := a * (3.0 - 2.0 * a - b), b * (3.0 - 2.0 * b - a);
    assert SmoothUnit(b) - SmoothUnit(a) == (b - a) * (p + q);
    MulNonneg(a, 3.0 - 2.0 * a - b);
    MulNonneg(b, 3.0 - 2.0 * b - a);
    MulNonneg(b - a, p + q);
  }

  /**
    `smoothstep(a, b, t)`: rescales t so that a maps to 0 and b to 1, then
    eases the result with the cubic. The source divides by b - a, so a and
    b must differ.
   */
  function Smoothstep(a: real, b: real, t: real): (r: real)
    requires a != b
    ensures t == a ==> r == 0.0
    ensures t == b ==> r == 1.0
    ensures 0.0 <= (t - a) / (b - a) <= 1.0 ==> 0.0 <= r <= 1.0
  {
    var s := (t - a) / (b - a);
    SmoothstepEndpoints(a, b, t);
    if 0.0 <= s <= 1.0 then SmoothUnitBounds(s); SmoothUnit(s) else SmoothUnit(s)
  }

  /** The rescaled argument of smoothstep is 0 at a and 1 at b. */
  lemma SmoothstepEndpoints(a: real, b: real, t: real)
    requires a != b
    ensures t == a ==> (t - a) / (b - a) == 0.0
    ensures t == b ==> (t - a) / (b - a) == 1.0
  {
  }

  /** Smoothstep over [0, 1] preserves the order of its argument there. */
  lemma SmoothstepMonotonic(t1: real, t2: real)
    requires 0.0 <= t1 <= t2 <= 1.0
    ensures 0.0 <= Smoothstep(0.0, 1.0, t1) <= Smoothstep(0.0, 1.0, t2) <= 1.0
  {
    assert Smoothstep(0.0, 1.0, t1) == SmoothUnit(t1);
    assert Smoothstep(0.0, 1.0, t2) == SmoothUnit(t2);
    SmoothUnitMonotonic(t1, t2);
  }

  /** `ease_in`: the quadratic ease. */
  function EaseIn(t: real): (r: real)
    ensures 0.0 <= r
    ensures t == 0.0 ==> r == 0.0
    ensures t == 1.0 ==> r == 1.0
    ensures 0.0 <= t <= 1.0 ==> r <= t
  {
    var r := t * t;
    EaseInFacts(t, r);
    r
  }

  lemma EaseInFacts(t: real, r: real)
    requires r == t * t
    ensures 0.0 <= r
    ensures t == 0.0 ==> r == 0.0
    ensures t == 1.0 ==> r == 1.0
    ensures 0.0 <= t <= 1.0 ==> r <= t
  {
    Square(t);
    if 0.0 <= t <= 1.0 {
      MulMonotonic(t, 1.0, t);
      assert t * t <= t;
    }
  }

  /** `ease_out`: the ease-in curve turned through half a turn about (1/2, 1/2). */
  function EaseOut(t: real): (r: real)
    ensures t == 0.0 ==> r == 0.0
    ensures t == 1.0 ==> r == 1.0
    ensures 0.0 <= t <= 1.0 ==> t <= r <= 1.0
  {
    1.0 - EaseIn(1.0 - t)
  }

  /** On [0, 1] both easings keep the order of their arguments, and ease_in stays below ease_out. */
  lemma EaseMonotonic(s: real, t: real)
    requires 0.0 <= s <= t <= 1.0
    ensures EaseIn(s) <= EaseIn(t)
    ensures EaseOut(s) <= EaseOut(t)
    ensures EaseIn(t) <= EaseOut(t)
  {
    SquareMonotonic(s, t);
    SquareMonotonic(1.0 - t, 1.0 - s);
  }

  /** Squaring keeps the order of non-negative numbers. */
  lemma SquareMonotonic(a: real, b: real)
    requires 0.0 <= a <= b
    ensures a * a <= b * b
  {
    MulMonotonic(a, b, a);
    MulMonotonic(a, b, b);
  }

  /** `button_mask`: some bit of `mask` is set in `buttons`. */
  function ButtonMask(buttons: bv32, mask: bv32): (pressed: bool)
    ensures mask == 0 ==> !pressed
    ensures buttons == 0 ==> !pressed
  {
    buttons & mask != 0
  }

  /** Bit `i` of a word, counted from the least significant bit. */
  predicate BitSet(x: bv32, i: nat)
    requires i < 32
  {
    (x >> i) & 1 == 1
  }

  /** Testing a one-bit mask reads exactly that bit. */
  lemma ButtonMaskSingleBit(buttons: bv32, i: nat)
    requires i < 32
    ensures ButtonMask(buttons, 1 << i) <==> BitSet(buttons, i)
  {
  }

  /** A mask made of two masks is pressed when either part is. */
  lemma ButtonMaskUnion(buttons: bv32, m1: bv32, m2: bv32)
    ensures ButtonMask(buttons, m1 | m2) <==> ButtonMask(buttons, m1) || ButtonMask(buttons, m2)
  {
    assert buttons & (m1 | m2) == (buttons & m1) | (buttons & m2);
  }

  /** `NOTE_NAME`: twelve two-character pitch-class names, sharps spelled `#`. */
  const NoteNames: string := "C C#D D#E F F#G G#A A#B "

  /** The twelve pitch-class names, C first. */
  const PitchClassNames: seq<string> :=
    ["C ", "C#", "D ", "D#", "E ", "F ", "F#", "G ", "G#", "A ", "A#", "B "]

  /** The pitch class a name stands for, or -1 for a string that is no name. */
  function PitchClassOf(name: string): int {
    if name == "C " then 0 else if name == "C#" then 1
    else if name == "D " then 2 else if name == "D#" then 3
    else if name == "E " then 4 else if name == "F " then 5
    else if name == "F#" then 6 else if name == "G " then 7
    else if name == "G#" then 8 else if name == "A " then 9
    else if name == "A#" then 10 else if name == "B " then 11
    else -1
  }

  /** Each two-character window at an even offset of `NOTE_NAME` is one pitch-class name. */
  lemma NoteNamesWindow(k: nat)
    requires k < 12
    ensures NoteNames[2 * k..2 * k + 2] == PitchClassNames[k]
  {
    assert NoteNames[2 * k..2 * k + 2] == [NoteNames[2 * k], NoteNames[2 * k + 1]];
  }

  /** Reading a name back gives its pitch class. */
  lemma PitchClassRoundTrip(k: nat)
    requires k < 12
    ensures PitchClassOf(PitchClassNames[k]) == k
  {
    if k == 0 {} else if k == 1 {} else if k == 2 {} else if k == 3 {}
    else if k == 4 {} else if k == 5 {} else if k == 6 {} else if k == 7 {}
    else if k == 8 {} else if k == 9 {} else if k == 10 {} else {}
  }

  /**
    The bracketed name part of `format_note`: the two characters of
    `NOTE_NAME` starting at twice the pitch class, which always lie
    inside the 24-character table.
   */
  function NoteName(n: nat): (name: string)
    ensures |name| == 2
    ensures name == PitchClassNames[n % 12]
    ensures PitchClassOf(name) == n % 12
  {
    var k := n % 12;
    NoteNamesWindow(k);
    PitchClassRoundTrip(k);
    NoteNames[2 * k..2 * k + 2]
  }

  /** The name depends on the pitch class only: octaves share a name. */
  lemma NoteNameOctave(n: nat)
    ensures NoteName(n + 12) == NoteName(n)
  {
    assert (n + 12) % 12 == n % 12;
  }

  /** Two notes share a name exactly when they share a pitch class. */
  lemma NoteNameInjective(n: nat, m: nat)
    ensures NoteName(n) == NoteName(m) <==> n % 12 == m % 12
  {
    if NoteName(n) == NoteName(m) {
      assert PitchClassOf(NoteName(n)) == PitchClassOf(NoteName(m));
    }
  }
}
