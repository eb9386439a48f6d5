/**
  The one-line glyph formatters of the terminal display: a trigger
  gauge, stick arrows, a bar, a button mask and the summary of a wand.
  Every glyph the model uses is a single character, so positions in the
  resulting strings are character positions.
 */
module Ui {
  import opened Ints
  import opened Tools
  import opened Zgicabra
  import Wrappers

  /** The bar heights of the gauge, from empty to full. */
  const GaugeBars: string := " ▁▂▃▄▅▆▇█"

  /**
    `minigauge`: eight times the value, cast to `u8`, picks a bar height
    between the two edge glyphs; a cast result above 8 shows a cross. The
    cast saturates, so negative values show the empty bar.
   */
  function Minigauge(x: real): (g: string)
    ensures |g| == 3 && g[0] == '▕' && g[2] == '▏'
    ensures g[1] == '×' <==> 9.0 <= x * 8.0
    ensures x * 8.0 < 9.0 ==> g[1] == GaugeBars[SaturatingUint8(x * 8.0)]
  {
    match SaturatingUint8(x * 8.0)
    case 0 => "▕ ▏"
    case 1 => "▕▁▏"
    case 2 => "▕▂▏"
    case 3 => "▕▃▏"
    case 4 => "▕▄▏"
    case 5 => "▕▅▏"
    case 6 => "▕▆▏"
    case 7 => "▕▇▏"
    case 8 => "▕█▏"
    case _ => "▕×▏"
  }

  /** The height of the bar a gauge shows, the inverse of `GaugeBars`; -1 for the cross. */
  function GaugeHeight(g: string): int
    requires |g| == 3
  {
    if g[1] == ' ' then 0 else if g[1] == '▁' then 1 else if g[1] == '▂' then 2
    else if g[1] == '▃' then 3 else if g[1] == '▄' then 4 else if g[1] == '▅' then 5
    else if g[1] == '▆' then 6 else if g[1] == '▇' then 7 else if g[1] == '█' then 8
    else -1
  }

  /**
    On the unit interval the gauge shows eighths rounded down, never the
    cross: empty at 0, full at 1, and a larger value never shows a lower
    bar.
   */
  lemma {:induction false} MinigaugeScale(x: real, y: real)
    requires 0.0 <= x <= y <= 1.0
    ensures GaugeHeight(Minigauge(x)) == (x * 8.0).Floor
    ensures GaugeHeight(Minigauge(x)) <= GaugeHeight(Minigauge(y))
    ensures x == 0.0 ==> Minigauge(x) == "▕ ▏"
    ensures y == 1.0 ==> Minigauge(y) == "▕█▏"
  {
    MulMonotonic(x, y, 8.0);
    var a, b := SaturatingUint8(x * 8.0), SaturatingUint8(y * 8.0);
    assert a == (x * 8.0).Floor;
    assert b == (y * 8.0).Floor;
  }

  /** `minidir`: an arrow in parentheses, a dot for no direction. */
  function Minidir(d: Direction): (s: string)
    ensures |s| == 3 && s[0] == '(' && s[2] == ')'
    ensures ReadDir(s) == Wrappers.Some(d)
  {
    match d
    case None => "(·)"
    case Up => "(↑)"
    case UpRight => "(↗)"
    case Right => "(→)"
    case DownRight => "(↘)"
    case Down => "(↓)"
    case DownLeft => "(↙)"
    case Left => "(←)"
    case UpLeft => "(↖)"
  }

  /** The direction an arrow glyph shows, the inverse of `Minidir`. */
  function ReadDir(s: string): Wrappers.Option<Direction>
    requires |s| == 3
  {
    var c := s[1];
    if c == '·' then Wrappers.Some(Direction.None)
    else if c == '↑' then Wrappers.Some(Direction.Up)
    else if c == '↗' then Wrappers.Some(Direction.UpRight)
    else if c == '→' then Wrappers.Some(Direction.Right)
    else if c == '↘' then Wrappers.Some(Direction.DownRight)
    else if c == '↓' then Wrappers.Some(Direction.Down)
    else if c == '↙' then Wrappers.Some(Direction.DownLeft)
    else if c == '←' then Wrappers.Some(Direction.Left)
    else if c == '↖' then Wrappers.Some(Direction.UpLeft)
    else Wrappers.None
  }

  /** Different directions never show the same glyph. */
  lemma MinidirInjective(d: Direction, e: Direction)
    ensures Minidir(d) == Minidir(e) <==> d == e
  {
    if Minidir(d) == Minidir(e) {
      assert ReadDir(Minidir(d)) == ReadDir(Minidir(e));
    }
  }

  /** `ministick`: a filled circle while the stick is clicked, its octant arrow otherwise. */
  function Ministick(stick: Joystick): (s: string)
    ensures |s| == 3 && s[0] == '(' && s[2] == ')'
    ensures s[1] == '⬤' <==> stick.clicked
    ensures !stick.clicked ==> ReadDir(s) == Wrappers.Some(stick.octant)
  {
    if stick.clicked then "(⬤)" else Minidir(stick.octant)
  }

  /** The cells of an `n`-cell bar lit by `x`: those whose left edge `i / n` lies below `x`. */
  function FilledCells(x: real, n: nat): (k: nat)
    ensures k <= n
    ensures x <= 0.0 ==> k == 0
    ensures 1.0 <= x ==> k == n
  {
    var c := Ceil(x * n as real);
    ScaleBounds(x, n as real);
    if c <= 0 then 0 else if n <= c then n else c
  }

  /** Scaling by a non-negative `n` keeps a value at most 0 there and one at least 1 at least `n`. */
  lemma ScaleBounds(x: real, n: real)
    requires 0.0 <= n
    ensures x <= 0.0 ==> x * n <= 0.0
    ensures 1.0 <= x ==> n <= x * n
  {
    if x <= 0.0 {
      MulMonotonic(x, 0.0, n);
    } else if 1.0 <= x {
      MulMonotonic(1.0, x, n);
    }
  }

  /** Cell `i` is lit exactly when it lies among the first `FilledCells` cells. */
  lemma CellLit(x: real, n: nat, i: nat)
    requires i < n
    ensures x > (i as real) / (n as real) <==> i < FilledCells(x, n)
  {
    var q := (i as real) / (n as real);
    assert q * (n as real) == i as real;
    if x > q {
      assert x * (n as real) - i as real == (x - q) * (n as real);
      MulPositive(x - q, n as real);
      assert x * (n as real) > i as real;
    } else {
      MulMonotonic(x, q, n as real);
      assert x * (n as real) <= i as real;
      var c := Ceil(x * n as real);
      assert (c as real) < (i + 1) as real;
      assert c <= i;
    }
  }

  lemma MulPositive(a: real, b: real)
    requires 0.0 < a && 0.0 < b
    ensures 0.0 < a * b
  {
  }

  /**
    `minibar`: `n` cells, lit from the left while the cell's edge is
    below `x`; so the lit cells form a prefix whose length is `x * n`
    rounded up and clamped to the bar.
   */
  method Minibar(x: real, n: uint8) returns (s: string)
    ensures |s| == n
    ensures forall i :: 0 <= i < n ==> (s[i] == '█' <==> i < FilledCells(x, n)) && (s[i] == '█' || s[i] == '░')
  {
    s := "";
    var i := 0;
    while i < n
      invariant 0 <= i <= n && |s| == i
      invariant forall j :: 0 <= j < i ==> (s[j] == '█' <==> j < FilledCells(x, n)) && (s[j] == '█' || s[j] == '░')
    {
      CellLit(x, n, i);
      if x > (i as real) / (n as real) {
        s := s + "█";
      } else {
        s := s + "░";
      }
      i := i + 1;
    }
  }

  /** The glyph of face button `k`: its number while held. */
  function ButtonGlyph(held: bool, k: nat): (c: char)
    requires k < 4
    ensures c != '░' <==> held
  {
    if held then "1234"[k] else '░'
  }

  /**
    `format_wand`: stick, trigger gauge, bumper, home and the four face
    buttons on one 18-character line.
   */
  function FormatWand(w: Wand): (s: string)
    ensures |s| == 18
    ensures s[..3] == Ministick(w.stick) && s[3..6] == Minigauge(w.trigger)
    ensures ReadPanel(s) == (w.bumper, w.home, w.buttons)
    ensures s[7] == (if w.bumper then '█' else '░') && s[11] == (if w.home then 'H' else '░')
    ensures forall k :: 0 <= k < 4 ==> s[13 + k] == (if w.buttons[k] then "1234"[k] else '░')
  {
    var head := Ministick(w.stick) + Minigauge(w.trigger);
    var panel := Panel(w);
    PanelRead(head, panel, w);
    head + panel
  }

  /** The twelve characters after the gauge: bumper, home and the face buttons between separators. */
  function Panel(w: Wand): (p: string)
    ensures |p| == 12
  {
    [']', if w.bumper then '█' else '░', '[', ' ', '-', if w.home then 'H' else '░', '-',
     ButtonGlyph(w.buttons[0], 0), ButtonGlyph(w.buttons[1], 1),
     ButtonGlyph(w.buttons[2], 2), ButtonGlyph(w.buttons[3], 3), '-']
  }

  /** Behind a six-character head, the panel's buttons read back as the wand's. */
  lemma PanelRead(head: string, panel: string, w: Wand)
    requires |head| == 6 && panel == Panel(w)
    ensures ReadPanel(head + panel) == (w.bumper, w.home, w.buttons)
    ensures (head + panel)[7] == (if w.bumper then '█' else '░') && (head + panel)[11] == (if w.home then 'H' else '░')
    ensures forall k :: 0 <= k < 4 ==> (head + panel)[13 + k] == (if w.buttons[k] then "1234"[k] else '░')
  {
    var s := head + panel;
    assert s[7] == panel[1] && s[11] == panel[5];
    assert s[13] == panel[7] && s[14] == panel[8] && s[15] == panel[9] && s[16] == panel[10];
    assert w.buttons == [w.buttons[0], w.buttons[1], w.buttons[2], w.buttons[3]];
  }

  /** Bumper, home and face buttons read back from a wand line. */
  function ReadPanel(s: string): (bool, bool, Buttons)
    requires |s| == 18
  {
    (s[7] == '█', s[11] == 'H', [s[13] != '░', s[14] != '░', s[15] != '░', s[16] != '░'])
  }
}

/**
  The button-mask row of the terminal display, kept apart from the other
  glyphs because its proofs work on 32-bit words.
 */
module UiMask {
  import opened Tools

  /** `1 << i` for the eight bits of a mask row. */
  function Bit(i: nat): bv32
    requires i < 8
  {
    if i == 0 then 1 else if i == 1 then 2 else if i == 2 then 4 else if i == 3 then 8
    else if i == 4 then 16 else if i == 5 then 32 else if i == 6 then 64 else 128
  }

  /** The table is the shift the source writes. */
  lemma BitIsShift(i: nat)
    requires i < 8
    ensures Bit(i) == (1 as bv32) << i
  {
    if i == 0 {
    } else if i == 1 {
    } else if i == 2 {
    } else if i == 3 {
    } else if i == 4 {
    } else if i == 5 {
    } else if i == 6 {
    } else {
    }
  }

  /** The bit a dot stands for: `b` when filled, nothing when hollow. */
  function DotBit(c: char, b: bv32): bv32
  {
    if c == '•' then b else 0
  }

  /** The mask a row of eight dots shows: bit `j` set for a filled dot at position `j`. */
  function ReadMask(s: string): bv32
    requires |s| == 8
  {
    DotBit(s[0], 1) | DotBit(s[1], 2) | DotBit(s[2], 4) | DotBit(s[3], 8)
    | DotBit(s[4], 16) | DotBit(s[5], 32) | DotBit(s[6], 64) | DotBit(s[7], 128)
  }

  /** A row whose dots follow the bits of `x` reads back as the low byte of `x`. */
  lemma DotsRead(x: bv32, s: string)
    requires |s| == 8
    requires forall i :: 0 <= i < 8 ==> (s[i] == '•' <==> ButtonMask(x, Bit(i)))
    ensures ReadMask(s) == x & 0xFF
  {
    assert Bit(7) == 128;
    var d0, d1, d2, d3 := s[0] == '•', s[1] == '•', s[2] == '•', s[3] == '•';
    var d4, d5, d6, d7 := s[4] == '•', s[5] == '•', s[6] == '•', s[7] == '•';
    assert d0 == (x & 1 != 0) && d1 == (x & 2 != 0) && d2 == (x & 4 != 0) && d3 == (x & 8 != 0);
    assert d4 == (x & 16 != 0) && d5 == (x & 32 != 0) && d6 == (x & 64 != 0) && d7 == (x & 128 != 0);
  }

  /** The glyph for bit `i` of `x`: filled when the bit is set, hollow otherwise. */
  function Dot(x: bv32, i: nat): (c: char)
    requires i < 8
    ensures c == '•' <==> BitSet(x, i)
    ensures c == '•' <==> ButtonMask(x, Bit(i))
    ensures c == '•' || c == '◦'
  {
    ButtonMaskSingleBit(x, i);
    BitIsShift(i);
    if x & Bit(i) != 0 then '•' else '◦'
  }

  /**
    `minimask`: the low eight bits of a button word as filled and hollow
    dots, least significant bit first; reading the dots back gives those
    eight bits.
   */
  method Minimask(x: bv32) returns (s: string)
    ensures |s| == 8
    ensures forall i :: 0 <= i < 8 ==> (s[i] == '•' <==> ButtonMask(x, Bit(i))) && (s[i] == '•' || s[i] == '◦')
    ensures ReadMask(s) == x & 0xFF
  {
    s := "";
    var i := 0;
    while i < 8
      invariant 0 <= i <= 8 && |s| == i
      invariant forall j :: 0 <= j < i ==> s[j] == Dot(x, j)
    {
      s := s + [Dot(x, i)];
      i := i + 1;
    }
    DotsRead(x, s);
  }
}
