/** The 64 x 32 monochrome framebuffer of `src/display.rs`, stored row-major
    (pixel (x, y) at index `x + WIDTH * y`), with clearing, single-pixel
    inversion and XOR sprite drawing.

    The operations are specified by functions on the buffer's contents
    (`seq<bool>`): every change the display makes is a sequence of pixel
    toggles, and the lemmas below are stated about those toggle sequences. */
module Display {
  import opened Bytes

  const WIDTH: nat := 64
  const HEIGHT: nat := 32
  const ON: bool := true
  const OFF: bool := false

  /** Row-major position of pixel (x, y). */
  function PixelIndex(x: nat, y: nat): nat
  {
    x + WIDTH * y
  }

  /** Distinct on-screen coordinates occupy distinct buffer positions. */
  lemma PixelIndexInjective(x: nat, y: nat, x': nat, y': nat)
    requires x < WIDTH && x' < WIDTH
    requires PixelIndex(x, y) == PixelIndex(x', y')
    ensures x == x' && y == y'
  {
  }

  /** The contents of a freshly made or cleared display. */
  function Blank(): (b: seq<bool>)
    ensures |b| == WIDTH * HEIGHT
    ensures forall k | 0 <= k < |b| :: b[k] == OFF
  {
    seq(WIDTH * HEIGHT, _ => OFF)
  }

  // ---------------------------------------------------------------------
  // Pixel toggles

  /** The buffer with pixel `k` inverted and every other pixel as it was. */
  function Toggle(s: seq<bool>, k: nat): (r: seq<bool>)
    requires k < |s|
    ensures |r| == |s| && r[k] == !s[k]
    ensures forall j | 0 <= j < |s| && j != k :: r[j] == s[j]
  {
    s[k := !s[k]]
  }

  /** Inverting the same pixel twice restores the buffer. */
  lemma ToggleTwice(s: seq<bool>, k: nat)
    requires k < |s|
    ensures Toggle(Toggle(s, k), k) == s
  {
  }

  /** Every position in `ks` lies below `n`. */
  predicate InRange(ks: seq<nat>, n: nat)
  {
    forall j | 0 <= j < |ks| :: ks[j] < n
  }

  /** The buffer after inverting the pixels of `ks`, in order. */
  function Toggles(s: seq<bool>, ks: seq<nat>): (r: seq<bool>)
    requires InRange(ks, |s|)
    ensures |r| == |s|
    decreases |ks|
  {
    if ks == [] then s else Toggle(Toggles(s, ks[..|ks| - 1]), ks[|ks| - 1])
  }

  predicate Odd(n: nat)
  {
    n % 2 == 1
  }

  /** A pixel ends up inverted exactly when it is toggled an odd number of
      times; the order of the toggles does not matter. */
  lemma {:induction false} TogglesAt(s: seq<bool>, ks: seq<nat>, p: nat)
    requires InRange(ks, |s|) && p < |s|
    ensures Toggles(s, ks)[p] == (s[p] != Odd(multiset(ks)[p]))
  {
    if ks != [] {
      var init, last := ks[..|ks| - 1], ks[|ks| - 1];
      TogglesAt(s, init, p);
      assert ks == init + [last];
      assert multiset(ks) == multiset(init) + multiset{last};
    }
  }

  /** A pixel that is not among the toggled ones keeps its value. */
  lemma TogglesElsewhere(s: seq<bool>, ks: seq<nat>, p: nat)
    requires InRange(ks, |s|) && p < |s| && p !in ks
    ensures Toggles(s, ks)[p] == s[p]
  {
    TogglesAt(s, ks, p);
  }

  /** Applying the same toggles twice restores the buffer. */
  lemma TogglesTwice(s: seq<bool>, ks: seq<nat>)
    requires InRange(ks, |s|)
    ensures Toggles(Toggles(s, ks), ks) == s
  {
    var once := Toggles(s, ks);
    var twice := Toggles(once, ks);
    forall p | 0 <= p < |s|
      ensures twice[p] == s[p]
    {
      TogglesAt(s, ks, p);
      TogglesAt(once, ks, p);
    }
  }

  /** One more toggle at the end of the list is one more `Toggle`. */
  lemma TogglesSnoc(s: seq<bool>, ks: seq<nat>, k: nat)
    requires InRange(ks, |s|) && k < |s|
    ensures InRange(ks + [k], |s|)
    ensures Toggles(s, ks + [k]) == Toggle(Toggles(s, ks), k)
  {
    assert (ks + [k])[..|ks|] == ks;
  }

  /** Toggling `a` and then `b` is toggling `a + b`. */
  lemma {:induction false} TogglesAppend(s: seq<bool>, a: seq<nat>, b: seq<nat>)
    requires InRange(a, |s|) && InRange(b, |s|)
    ensures InRange(a + b, |s|)
    ensures Toggles(s, a + b) == Toggles(Toggles(s, a), b)
    decreases |b|
  {
    if b != [] {
      var init, last := b[..|b| - 1], b[|b| - 1];
      TogglesAppend(s, a, init);
      TogglesSnoc(s, a + init, last);
      calc {
        Toggles(s, a + b);
        { assert a + b == (a + init) + [last]; }
        Toggles(s, (a + init) + [last]);
        Toggle(Toggles(s, a + init), last);
        Toggle(Toggles(Toggles(s, a), init), last);
        Toggles(Toggles(s, a), b);
      }
    } else {
      assert a + b == a;
    }
  }

  // ---------------------------------------------------------------------
  // Sprite rows

  function Pow2(n: nat): (r: nat)
    ensures r > 0
  {
    if n == 0 then 1 else 2 * Pow2(n - 1)
  }

  /** Column `i` of a sprite row is lit: `row >> (7 - i) & 0x01 == 1`, so
      column 0 is the most significant bit. */
  predicate Bit(row: u8, i: nat)
    requires i < 8
  {
    (row as int / Pow2(7 - i)) % 2 == 1
  }

  /** Columns are read most significant bit first: column 0 is bit 7 and
      column 7 is bit 0. */
  lemma BitOrder(row: u8)
    ensures Bit(row, 0) <==> row >= 0x80
    ensures Bit(row, 7) <==> row % 2 == 1
  {
  }

  /** A zero row has no lit column. */
  lemma ZeroRowUnlit(i: nat)
    requires i < 8
    ensures !Bit(0, i)
  {
  }

  // ---------------------------------------------------------------------
  // Sprite drawing

  /** How the pixel toggled for column `i` of sprite row `pos` is chosen. */
  datatype Reading =
    | /** As `draw` is written: every lit column toggles the wrapped base
          pixel (x % WIDTH, y % HEIGHT). */
      AsWritten
    | /** The evident intent: column `i` of row `pos` toggles
          ((x + i) % WIDTH, (y + pos) % HEIGHT). */
      WithOffsets

  /** The pixel toggled for column `i` of row `pos`; coordinates wrap, so it
      is on screen for every `x` and `y`. */
  function Target(reading: Reading, x: nat, y: nat, pos: nat, i: nat): (k: nat)
    ensures k < WIDTH * HEIGHT
  {
    match reading
    case AsWritten => PixelIndex(x % WIDTH, y % HEIGHT)
    case WithOffsets => PixelIndex((x + i) % WIDTH, (y + pos) % HEIGHT)
  }

  /** The pixels toggled, in order, by the first `n` columns of row `pos`. */
  function RowTargets(reading: Reading, x: nat, y: nat, pos: nat, row: u8, n: nat): (ks: seq<nat>)
    requires n <= 8
    ensures InRange(ks, WIDTH * HEIGHT)
  {
    if n == 0 then []
    else
      RowTargets(reading, x, y, pos, row, n - 1)
      + (if Bit(row, n - 1) then [Target(reading, x, y, pos, n - 1)] else [])
  }

  /** The pixels toggled, in order, by drawing `sprite` at (x, y). */
  function SpriteTargets(reading: Reading, x: nat, y: nat, sprite: seq<u8>): (ks: seq<nat>)
    ensures InRange(ks, WIDTH * HEIGHT)
    decreases |sprite|
  {
    if sprite == [] then []
    else
      var last := |sprite| - 1;
      SpriteTargets(reading, x, y, sprite[..last]) + RowTargets(reading, x, y, last, sprite[last], 8)
  }

  /** Drawing one more row toggles that row's pixels after the others. */
  lemma SpriteTargetsSnoc(reading: Reading, x: nat, y: nat, sprite: seq<u8>, pos: nat)
    requires pos < |sprite|
    ensures SpriteTargets(reading, x, y, sprite[..pos + 1])
         == SpriteTargets(reading, x, y, sprite[..pos]) + RowTargets(reading, x, y, pos, sprite[pos], 8)
  {
    assert sprite[..pos + 1][..pos] == sprite[..pos];
  }

  /** The buffer after drawing `sprite` at (x, y). */
  function Drawn(s: seq<bool>, reading: Reading, x: nat, y: nat, sprite: seq<u8>): (r: seq<bool>)
    requires |s| == WIDTH * HEIGHT
    ensures |r| == |s|
  {
    Toggles(s, SpriteTargets(reading, x, y, sprite))
  }

  /** A pixel is toggled by a row exactly when some lit column of the row
      targets it. */
  lemma {:induction false} RowTargetsMembers(reading: Reading, x: nat, y: nat, pos: nat, row: u8, n: nat, k: nat)
    requires n <= 8
    ensures k in RowTargets(reading, x, y, pos, row, n)
        <==> exists i | 0 <= i < n :: Bit(row, i) && k == Target(reading, x, y, pos, i)
  {
    if n > 0 {
      RowTargetsMembers(reading, x, y, pos, row, n - 1, k);
    }
  }

  /** A pixel is toggled by a sprite exactly when some lit column of some
      row targets it. */
  lemma {:induction false} SpriteTargetsMembers(reading: Reading, x: nat, y: nat, sprite: seq<u8>, k: nat)
    ensures k in SpriteTargets(reading, x, y, sprite)
        <==> exists pos, i | 0 <= pos < |sprite| && 0 <= i < 8 ::
               Bit(sprite[pos], i) && k == Target(reading, x, y, pos, i)
  {
    if sprite != [] {
      var last := |sprite| - 1;
      var init := sprite[..last];
      SpriteTargetsMembers(reading, x, y, init, k);
      RowTargetsMembers(reading, x, y, last, sprite[last], 8, k);
      if k in SpriteTargets(reading, x, y, sprite) {
        if k in SpriteTargets(reading, x, y, init) {
          var pos, i :| 0 <= pos < |init| && 0 <= i < 8 && Bit(init[pos], i) && k == Target(reading, x, y, pos, i);
          assert sprite[pos] == init[pos];
        }
      } else {
        forall pos, i | 0 <= pos < |sprite| && 0 <= i < 8 && Bit(sprite[pos], i)
          ensures k != Target(reading, x, y, pos, i)
        {
          if pos < last {
            assert init[pos] == sprite[pos];
          }
        }
      }
    }
  }

  /** Drawing changes no pixel that no lit column of the sprite targets. */
  lemma DrawnElsewhere(s: seq<bool>, reading: Reading, x: nat, y: nat, sprite: seq<u8>, p: nat)
    requires |s| == WIDTH * HEIGHT && p < |s|
    requires forall pos, i | 0 <= pos < |sprite| && 0 <= i < 8 && Bit(sprite[pos], i) ::
               p != Target(reading, x, y, pos, i)
    ensures Drawn(s, reading, x, y, sprite)[p] == s[p]
  {
    SpriteTargetsMembers(reading, x, y, sprite, p);
    TogglesElsewhere(s, SpriteTargets(reading, x, y, sprite), p);
  }

  /** A sprite whose rows are all zero (in particular the empty sprite)
      toggles nothing. */
  lemma {:induction false} ZeroSpriteNoTargets(reading: Reading, x: nat, y: nat, sprite: seq<u8>)
    requires forall pos | 0 <= pos < |sprite| :: sprite[pos] == 0
    ensures SpriteTargets(reading, x, y, sprite) == []
  {
    if sprite != [] {
      var last := |sprite| - 1;
      var init := sprite[..last];
      assert forall pos | 0 <= pos < |init| :: init[pos] == sprite[pos];
      ZeroSpriteNoTargets(reading, x, y, init);
      ZeroRowNoTargets(reading, x, y, last, 8);
    }
  }

  lemma {:induction false} ZeroRowNoTargets(reading: Reading, x: nat, y: nat, pos: nat, n: nat)
    requires n <= 8
    ensures RowTargets(reading, x, y, pos, 0, n) == []
  {
    if n > 0 {
      ZeroRowNoTargets(reading, x, y, pos, n - 1);
      ZeroRowUnlit(n - 1);
    }
  }

  /** Drawing a sprite of zero rows, or of none, leaves the buffer as it was. */
  lemma DrawZeroSprite(s: seq<bool>, reading: Reading, x: nat, y: nat, sprite: seq<u8>)
    requires |s| == WIDTH * HEIGHT
    requires forall pos | 0 <= pos < |sprite| :: sprite[pos] == 0
    ensures Drawn(s, reading, x, y, sprite) == s
  {
    ZeroSpriteNoTargets(reading, x, y, sprite);
  }

  /** Drawing the same sprite at the same place twice restores the buffer. */
  lemma DrawTwice(s: seq<bool>, reading: Reading, x: nat, y: nat, sprite: seq<u8>)
    requires |s| == WIDTH * HEIGHT
    ensures Drawn(Drawn(s, reading, x, y, sprite), reading, x, y, sprite) == s
  {
    TogglesTwice(s, SpriteTargets(reading, x, y, sprite));
  }

  // ---------------------------------------------------------------------
  // Exact effect of each reading

  /** Two columns of rows of a sprite at most `HEIGHT` rows tall land on the
      same pixel only if they are the same column of the same row. */
  lemma TargetInjective(x: nat, y: nat, pos: nat, i: nat, pos': nat, i': nat)
    requires pos < HEIGHT && pos' < HEIGHT && i < 8 && i' < 8
    requires Target(WithOffsets, x, y, pos, i) == Target(WithOffsets, x, y, pos', i')
    ensures pos == pos' && i == i'
  {
    PixelIndexInjective((x + i) % WIDTH, (y + pos) % HEIGHT, (x + i') % WIDTH, (y + pos') % HEIGHT);
  }

  lemma {:induction false} RowCount(x: nat, y: nat, pos: nat, row: u8, n: nat, pos': nat, i': nat)
    requires n <= 8 && pos < HEIGHT && pos' < HEIGHT && i' < 8
    ensures multiset(RowTargets(WithOffsets, x, y, pos, row, n))[Target(WithOffsets, x, y, pos', i')]
         == if pos == pos' && i' < n && Bit(row, i') then 1 else 0
  {
    if n > 0 {
      RowCount(x, y, pos, row, n - 1, pos', i');
      if Target(WithOffsets, x, y, pos, n - 1) == Target(WithOffsets, x, y, pos', i') {
        TargetInjective(x, y, pos, n - 1, pos', i');
      }
    }
  }

  lemma {:induction false} SpriteCount(x: nat, y: nat, sprite: seq<u8>, pos': nat, i': nat)
    requires |sprite| <= HEIGHT && pos' < HEIGHT && i' < 8
    ensures multiset(SpriteTargets(WithOffsets, x, y, sprite))[Target(WithOffsets, x, y, pos', i')]
         == if pos' < |sprite| && Bit(sprite[pos'], i') then 1 else 0
  {
    if sprite != [] {
      var last := |sprite| - 1;
      SpriteCount(x, y, sprite[..last], pos', i');
      RowCount(x, y, last, sprite[last], 8, pos', i');
    }
  }

  /** With the offsets added, drawing a sprite of at most `HEIGHT` rows
      inverts pixel ((x + i) % WIDTH, (y + pos) % HEIGHT) exactly when
      column `i` of row `pos` is lit, for every such pixel. */
  lemma DrawnAt(s: seq<bool>, x: nat, y: nat, sprite: seq<u8>, pos: nat, i: nat)
    requires |s| == WIDTH * HEIGHT
    requires |sprite| <= HEIGHT && pos < |sprite| && i < 8
    ensures Drawn(s, WithOffsets, x, y, sprite)[PixelIndex((x + i) % WIDTH, (y + pos) % HEIGHT)]
         == (s[PixelIndex((x + i) % WIDTH, (y + pos) % HEIGHT)] != Bit(sprite[pos], i))
  {
    var k := Target(WithOffsets, x, y, pos, i);
    SpriteCount(x, y, sprite, pos, i);
    TogglesAt(s, SpriteTargets(WithOffsets, x, y, sprite), k);
  }

  /** Number of lit columns among the first `n` of a row. */
  function RowBits(row: u8, n: nat): nat
    requires n <= 8
  {
    if n == 0 then 0 else RowBits(row, n - 1) + (if Bit(row, n - 1) then 1 else 0)
  }

  /** Number of lit columns in a sprite. */
  function SpriteBits(sprite: seq<u8>): nat
    decreases |sprite|
  {
    if sprite == [] then 0 else SpriteBits(sprite[..|sprite| - 1]) + RowBits(sprite[|sprite| - 1], 8)
  }

  lemma {:induction false} AsWrittenRowCount(x: nat, y: nat, pos: nat, row: u8, n: nat, p: nat)
    requires n <= 8
    ensures multiset(RowTargets(AsWritten, x, y, pos, row, n))[p]
         == if p == PixelIndex(x % WIDTH, y % HEIGHT) then RowBits(row, n) else 0
  {
    if n > 0 {
      AsWrittenRowCount(x, y, pos, row, n - 1, p);
    }
  }

  lemma {:induction false} AsWrittenSpriteCount(x: nat, y: nat, sprite: seq<u8>, p: nat)
    ensures multiset(SpriteTargets(AsWritten, x, y, sprite))[p]
         == if p == PixelIndex(x % WIDTH, y % HEIGHT) then SpriteBits(sprite) else 0
  {
    if sprite != [] {
      var last := |sprite| - 1;
      AsWrittenSpriteCount(x, y, sprite[..last], p);
      AsWrittenRowCount(x, y, last, sprite[last], 8, p);
    }
  }

  /** As `draw` is written, only the base pixel (x % WIDTH, y % HEIGHT) can
      change, and it is inverted exactly when the sprite has an odd number
      of lit columns. */
  lemma AsWrittenAt(s: seq<bool>, x: nat, y: nat, sprite: seq<u8>, p: nat)
    requires |s| == WIDTH * HEIGHT && p < |s|
    ensures Drawn(s, AsWritten, x, y, sprite)[p]
         == if p == PixelIndex(x % WIDTH, y % HEIGHT) then s[p] != Odd(SpriteBits(sprite)) else s[p]
  {
    AsWrittenSpriteCount(x, y, sprite, p);
    TogglesAt(s, SpriteTargets(AsWritten, x, y, sprite), p);
  }

  /** The discrepancy: the one-row sprite 0xC0 drawn at (0, 0) on a blank
      screen lights pixels (0, 0) and (1, 0) with the offsets added, but as
      written toggles (0, 0) twice and leaves both pixels off. */
  lemma AsWrittenDropsOffsets()
    ensures Drawn(Blank(), AsWritten, 0, 0, [0xC0])[0] == OFF
    ensures Drawn(Blank(), AsWritten, 0, 0, [0xC0])[1] == OFF
    ensures Drawn(Blank(), WithOffsets, 0, 0, [0xC0])[0] == ON
    ensures Drawn(Blank(), WithOffsets, 0, 0, [0xC0])[1] == ON
  {
    var sprite: seq<u8> := [0xC0];
    assert Pow2(7) == 0x80 && Pow2(6) == 0x40 by {
      assert Pow2(0) == 1;
      assert Pow2(3) == 8;
    }
    assert Bit(0xC0, 0) && Bit(0xC0, 1);
    assert RowBits(0xC0, 8) == 2 by {
      assert Pow2(5) == 0x20 && Pow2(4) == 0x10 && Pow2(3) == 8 && Pow2(2) == 4 && Pow2(1) == 2;
      assert RowBits(0xC0, 2) == 2;
    }
    assert SpriteBits(sprite) == 2 by {
      assert sprite[..0] == [];
    }
    AsWrittenAt(Blank(), 0, 0, sprite, 0);
    AsWrittenAt(Blank(), 0, 0, sprite, 1);
    DrawnAt(Blank(), 0, 0, sprite, 0, 0);
    DrawnAt(Blank(), 0, 0, sprite, 0, 1);
  }

  // ---------------------------------------------------------------------
  // The slips in `cls` and `swap_pixel`, as written

  /** `cls` as written (reading `self::pixels` as `self.pixels`): the loop
      assigns to a copy of each pixel, so the buffer is returned as it was. */
  function ClearedAsWritten(s: seq<bool>): (r: seq<bool>)
    ensures |r| == |s|
  {
    s
  }

  /** A lit pixel stays lit through `cls` as written, while the intended
      clear turns it off. */
  lemma ClsAsWrittenKeepsLitPixel(s: seq<bool>, k: nat)
    requires |s| == WIDTH * HEIGHT && k < |s| && s[k] == ON
    ensures ClearedAsWritten(s)[k] == ON && Blank()[k] == OFF
  {
  }

  /** `swap_pixel` as written: the inverted value goes to a local copy and
      the buffer is returned as it was. */
  function SwappedAsWritten(s: seq<bool>, k: nat): (r: seq<bool>)
    requires k < |s|
    ensures |r| == |s|
  {
    var pixel := !s[k];
    s
  }

  /** `swap_pixel` as written never inverts the pixel it is given. */
  lemma SwapAsWrittenLosesUpdate(s: seq<bool>, k: nat)
    requires k < |s|
    ensures SwappedAsWritten(s, k)[k] == s[k] && Toggle(s, k)[k] != s[k]
  {
  }

  // ---------------------------------------------------------------------
  // The framebuffer

  class Display {
    var pixels: array<bool>

    ghost predicate Valid()
      reads this
    {
      pixels.Length == WIDTH * HEIGHT
    }

    /** `Display::new`: a buffer of `WIDTH * HEIGHT` pixels, all off. */
    constructor ()
      ensures Valid() && fresh(pixels)
      ensures pixels[..] == Blank()
    {
      pixels := new bool[WIDTH * HEIGHT](_ => OFF);
    }

    /** `cls`: every pixel off; the buffer keeps its length. */
    method Cls()
      requires Valid()
      modifies pixels
      ensures pixels[..] == Blank()
    {
      for k := 0 to pixels.Length
        invariant forall j | 0 <= j < k :: pixels[j] == OFF
      {
        pixels[k] := OFF;
      }
    }

    /** `swap_pixel`: invert pixel (x, y) and nothing else. The index must
        lie in the buffer (the source panics otherwise). */
    method SwapPixel(x: nat, y: nat)
      requires PixelIndex(x, y) < pixels.Length
      modifies pixels
      ensures pixels[..] == Toggle(old(pixels[..]), PixelIndex(x, y))
    {
      var k := PixelIndex(x, y);
      pixels[k] := !pixels[k];
    }

    /** `draw`, with the row and column offsets added: for each lit column
        `i` of each row `pos`, most significant bit first, invert the pixel
        at ((x + i) % WIDTH, (y + pos) % HEIGHT). */
    method Draw(x: nat, y: nat, sprite: seq<u8>)
      requires Valid()
      modifies pixels
      ensures pixels[..] == Drawn(old(pixels[..]), WithOffsets, x, y, sprite)
    {
      ghost var before := pixels[..];
      for pos := 0 to |sprite|
        invariant pixels[..] == Toggles(before, SpriteTargets(WithOffsets, x, y, sprite[..pos]))
      {
        ghost var done := SpriteTargets(WithOffsets, x, y, sprite[..pos]);
        DrawRow(x, y, pos, sprite[pos]);
        TogglesAppend(before, done, RowTargets(WithOffsets, x, y, pos, sprite[pos], 8));
        SpriteTargetsSnoc(WithOffsets, x, y, sprite, pos);
      }
      assert sprite[..|sprite|] == sprite;
    }

    /** The inner loop of `draw`: the eight columns of row `pos`. */
    method DrawRow(x: nat, y: nat, pos: nat, row: u8)
      requires Valid()
      modifies pixels
      ensures pixels[..] == Toggles(old(pixels[..]), RowTargets(WithOffsets, x, y, pos, row, 8))
    {
      ghost var before := pixels[..];
      for i := 0 to 8
        invariant pixels[..] == Toggles(before, RowTargets(WithOffsets, x, y, pos, row, i))
      {
        if Bit(row, i) {
          ghost var k := Target(WithOffsets, x, y, pos, i);
          SwapPixel((x + i) % WIDTH, (y + pos) % HEIGHT);
          TogglesSnoc(before, RowTargets(WithOffsets, x, y, pos, row, i), k);
          assert RowTargets(WithOffsets, x, y, pos, row, i + 1) == RowTargets(WithOffsets, x, y, pos, row, i) + [k];
        } else {
          assert RowTargets(WithOffsets, x, y, pos, row, i + 1) == RowTargets(WithOffsets, x, y, pos, row, i);
        }
      }
    }
  }
}
