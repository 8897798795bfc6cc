/** The mipmap corridor demo (lab3): the power-of-two test and the BMP row
    arithmetic of loadBmpTexture, and the statics that the keyboard, mouse
    and filter-menu callbacks update. */
module Mipmap {

  /** 2^k. */
  function Pow2(k: nat): (r: nat)
    ensures r >= 1
  {
    if k == 0 then 1 else 2 * Pow2(k - 1)
  }

  /** n is 2^k for some k >= 0. */
  ghost predicate PowerOfTwo(n: int) {
    exists k: nat :: Pow2(k) == n
  }

  /** C's `&` on two non-negative integers, bit by bit from the lowest. */
  function BitAnd(a: nat, b: nat): nat {
    if a == 0 || b == 0 then 0
    else 2 * BitAnd(a / 2, b / 2) + (if a % 2 == 1 && b % 2 == 1 then 1 else 0)
  }

  /** isPowerOfTwo: 0 for num <= 0, otherwise whether num & (num - 1) is 0,
      which holds exactly for the powers of two. */
  function IsPowerOfTwo(num: int): (r: int)
    ensures r == 0 || r == 1
    ensures num <= 0 ==> r == 0
    ensures num > 0 ==> (r == 1 <==> PowerOfTwo(num))
  {
    if num <= 0 then 0
    else
      LowestBitTrick(num);
      if BitAnd(num, num - 1) == 0 then 1 else 0
  }

  /** a & a is a. */
  lemma {:induction false} BitAndSelf(a: nat)
    ensures BitAnd(a, a) == a
  {
    if a != 0 {
      BitAndSelf(a / 2);
    }
  }

  /** n & (n - 1) clears the lowest set bit of n, so it is 0 exactly when n
      has a single bit set. */
  lemma {:induction false} LowestBitTrick(n: nat)
    requires n > 0
    ensures BitAnd(n, n - 1) == 0 <==> PowerOfTwo(n)
  {
    if n == 1 {
      assert Pow2(0) == 1;
    } else if n % 2 == 0 {
      var m := n / 2;
      assert (n - 1) / 2 == m - 1 && (n - 1) % 2 == 1;
      LowestBitTrick(m);
      assert BitAnd(n, n - 1) == 2 * BitAnd(m, m - 1);
      if PowerOfTwo(m) {
        var k: nat :| Pow2(k) == m;
        assert Pow2(k + 1) == n;
      }
      if PowerOfTwo(n) {
        var k: nat :| Pow2(k) == n;
        assert k != 0;
        assert Pow2(k - 1) == m;
      }
    } else {
      var m := n / 2;
      assert (n - 1) / 2 == m && (n - 1) % 2 == 0;
      BitAndSelf(m);
      assert BitAnd(n, n - 1) == 2 * m;
      forall k: nat
        ensures Pow2(k) != n
      {
        if k > 0 {
          assert Pow2(k) % 2 == 0;
        }
      }
    }
  }

  /** The row loop of loadBmpTexture: three bytes a pixel, padded up to the
      next multiple of 4 bytes as the BMP pixel array lays rows out. */
  method RowBytes(width: int) returns (rowBytes: int)
    ensures rowBytes % 4 == 0
    ensures width * 3 <= rowBytes <= width * 3 + 3
  {
    rowBytes := width * 3;
    while rowBytes % 4 != 0
      invariant width * 3 <= rowBytes <= width * 3 + (4 - (width * 3) % 4) % 4
      decreases width * 3 + 3 - rowBytes
    {
      rowBytes := rowBytes + 1;
    }
  }

  /** The side loadBmpTexture rescales an unsuitable image to. */
  const ResizedSize := 256

  /** Whether loadBmpTexture rescales the image to 256 x 256: a side that
      is not a power of two, or one larger than the implementation's
      maximum texture size. */
  predicate NeedsResize(imgWidth: int, imgHeight: int, maxTexSize: int) {
    IsPowerOfTwo(imgWidth) == 0 || IsPowerOfTwo(imgHeight) == 0
    || imgWidth > maxTexSize || imgHeight > maxTexSize
  }

  /** The size arithmetic of loadBmpTexture: the bytes read from the file,
      then the sides, row stride and byte count of the buffer that is
      uploaded, after the rescale when one is needed. */
  method TextureLayout(imgWidth: int, imgHeight: int, maxTexSize: int)
    returns (rowBytes: int, readSize: int, width: int, height: int, stride: int, size: int)
    ensures rowBytes % 4 == 0 && imgWidth * 3 <= rowBytes <= imgWidth * 3 + 3
    ensures readSize == rowBytes * imgHeight
    ensures NeedsResize(imgWidth, imgHeight, maxTexSize) ==>
      width == 256 && height == 256 && stride == 768 && size == 768 * 256
    ensures !NeedsResize(imgWidth, imgHeight, maxTexSize) ==>
      width == imgWidth && height == imgHeight && size == readSize
      && stride == rowBytes
    ensures PowerOfTwo(width) && PowerOfTwo(height)
    ensures stride % 4 == 0 && width * 3 <= stride && size == stride * height
  {
    rowBytes := RowBytes(imgWidth);
    readSize := rowBytes * imgHeight;
    if IsPowerOfTwo(imgWidth) == 0 || IsPowerOfTwo(imgHeight) == 0
      || imgWidth > maxTexSize || imgHeight > maxTexSize
    {
      var newSize := ResizedSize;
      var newRowBytes := RowBytes(newSize);
      stride := newRowBytes;
      size := newRowBytes * newSize;
      width, height := newSize, newSize;
      assert newRowBytes == 768;
      assert Pow2(4) == 16;
      assert Pow2(8) == 256;
    } else {
      width, height, stride, size := imgWidth, imgHeight, rowBytes, readSize;
    }
  }

  /** GLUT's codes for the arrow keys, the left button and a press. */
  const KeyLeft := 100
  const KeyUp := 101
  const KeyRight := 102
  const KeyDown := 103
  const LeftButton := 0
  const Down := 0

  /** OpenGL's texture filter names. */
  const GlNearest := 0x2600
  const GlLinear := 0x2601
  const GlNearestMipmapNearest := 0x2700
  const GlLinearMipmapNearest := 0x2701
  const GlNearestMipmapLinear := 0x2702
  const GlLinearMipmapLinear := 0x2703

  /** The minFilters table of onMenuSelect, indexed by option - 10. */
  const MinFilters: seq<int> := [GlNearest, GlLinear, GlNearestMipmapNearest,
    GlLinearMipmapNearest, GlNearestMipmapLinear, GlLinearMipmapLinear]

  /** The minification filter a menu entry selects. The menu registers the
      entries 10 to 15 only, which are exactly the indices of the table. */
  function MenuFilter(option: int): (f: int)
    requires 10 <= option <= 15
    ensures f in MinFilters
  {
    MinFilters[option - 10]
  }

  /** The six entries select six different filters, and entry 15 selects
      the trilinear filter every texture is loaded with. */
  lemma MenuFiltersDistinct()
    ensures forall a, b :: 10 <= a < b <= 15 ==> MenuFilter(a) != MenuFilter(b)
    ensures MenuFilter(15) == GlLinearMipmapLinear
  {
  }

  /** The two filter parameters of one texture object. */
  datatype Filtering = Filtering(minFilter: int, magFilter: int)

  /** The pitch limit of onMotion: at most 89 degrees up or down. */
  function ClampPitch(pitch: real): (r: real)
    ensures -89.0 <= r <= 89.0
    ensures -89.0 <= pitch <= 89.0 ==> r == pitch
    ensures pitch > 89.0 ==> r == 89.0
    ensures pitch < -89.0 ==> r == -89.0
  {
    var p := if pitch > 89.0 then 89.0 else pitch;
    if p < -89.0 then -89.0 else p
  }

  /** The statics of the corridor demo and the filter state of its three
      textures. `filtering` maps each texture name the program has created
      to its parameters; name 0 stands for a texture that failed to load. */
  class CorridorView {
    var rotateAngle: real
    var depthPos: real
    var mouseRotate: real
    var viewPitch: real
    var prevMouseX: int
    var prevMouseY: int
    var isMenuOpen: bool
    /** textures[0..2]: ground, wall and ceiling, as loadBmpTexture
        returned them. */
    const textures: array<int>
    var filtering: map<int, Filtering>

    predicate Valid()
      reads this
    {
      textures.Length == 3 && -89.0 <= viewPitch <= 89.0 && rotateAngle <= 360.0
    }

    /** initTextures: the three names come from loading the three files;
        each texture that loaded starts out trilinear with a linear
        magnification filter. The statics start at zero. */
    constructor(ids: seq<int>)
      requires |ids| == 3
      ensures Valid() && fresh(textures) && textures[..] == ids
      ensures forall t :: t in filtering <==> t in ids && t != 0
      ensures forall t :: t in filtering ==> filtering[t] == Filtering(GlLinearMipmapLinear, GlLinear)
      ensures rotateAngle == 0.0 && depthPos == 0.0 && mouseRotate == 0.0 && viewPitch == 0.0
      ensures prevMouseX == 0 && prevMouseY == 0 && !isMenuOpen
    {
      textures := new int[3](i requires 0 <= i < 3 => ids[i]);
      filtering := map t | t in ids && t != 0 :: Filtering(GlLinearMipmapLinear, GlLinear);
      rotateAngle, depthPos, mouseRotate, viewPitch := 0.0, 0.0, 0.0, 0.0;
      prevMouseX, prevMouseY := 0, 0;
      isMenuOpen := false;
      new;
      assert textures[..] == ids;
    }

    /** onSpecialKey: up and down move the corridor by half a unit, left
        and right turn it by half a degree, and an angle past 360 is reset
        to 0 whatever the key. */
    method SpecialKey(key: int)
      requires Valid()
      modifies this
      ensures Valid()
      ensures key == KeyUp ==> depthPos == old(depthPos) + 0.5
      ensures key == KeyDown ==> depthPos == old(depthPos) - 0.5
      ensures key != KeyUp && key != KeyDown ==> depthPos == old(depthPos)
      ensures var turned := old(rotateAngle) + (if key == KeyLeft then -0.5 else if key == KeyRight then 0.5 else 0.0);
        rotateAngle == (if turned > 360.0 then 0.0 else turned)
      ensures viewPitch == old(viewPitch) && mouseRotate == old(mouseRotate)
      ensures prevMouseX == old(prevMouseX) && prevMouseY == old(prevMouseY)
      ensures isMenuOpen == old(isMenuOpen) && filtering == old(filtering)
    {
      if key == KeyUp {
        depthPos := depthPos + 0.5;
      }
      if key == KeyDown {
        depthPos := depthPos - 0.5;
      }
      if key == KeyLeft {
        rotateAngle := rotateAngle - 0.5;
      }
      if key == KeyRight {
        rotateAngle := rotateAngle + 0.5;
      }
      if rotateAngle > 360.0 {
        rotateAngle := 0.0;
      }
    }

    /** onMouse: while the menu is open every event is ignored; otherwise a
        left press records where the drag starts. */
    method Mouse(button: int, state: int, x: int, y: int)
      modifies this
      ensures isMenuOpen || !(button == LeftButton && state == Down) ==>
        prevMouseX == old(prevMouseX) && prevMouseY == old(prevMouseY)
      ensures !isMenuOpen && button == LeftButton && state == Down ==>
        prevMouseX == x && prevMouseY == y
      ensures isMenuOpen == old(isMenuOpen) && filtering == old(filtering)
      ensures rotateAngle == old(rotateAngle) && depthPos == old(depthPos)
      ensures viewPitch == old(viewPitch) && mouseRotate == old(mouseRotate)
    {
      if isMenuOpen {
        return;
      }
      if button == LeftButton && state == Down {
        prevMouseX := x;
        prevMouseY := y;
      }
    }

    /** onMotion: a drag turns the view by a tenth of a degree per pixel
        across and pitches it by a tenth per pixel down, the pitch kept
        within 89 degrees; a motion to the recorded point changes nothing. */
    method Motion(x: int, y: int)
      requires Valid()
      modifies this
      ensures Valid()
      ensures x == old(prevMouseX) && y == old(prevMouseY) ==>
        mouseRotate == old(mouseRotate) && viewPitch == old(viewPitch)
        && prevMouseX == old(prevMouseX) && prevMouseY == old(prevMouseY)
      ensures !(x == old(prevMouseX) && y == old(prevMouseY)) ==>
        mouseRotate == old(mouseRotate) + (x - old(prevMouseX)) as real * 0.1
        && viewPitch == ClampPitch(old(viewPitch) + (y - old(prevMouseY)) as real * 0.1)
        && prevMouseX == x && prevMouseY == y
      ensures rotateAngle == old(rotateAngle) && depthPos == old(depthPos)
      ensures isMenuOpen == old(isMenuOpen) && filtering == old(filtering)
    {
      var dx := (x - prevMouseX) as real;
      var dy := (y - prevMouseY) as real;
      if dx != 0.0 || dy != 0.0 {
        mouseRotate := mouseRotate + dx * 0.1;
        viewPitch := viewPitch + dy * 0.1;
        if viewPitch > 89.0 {
          viewPitch := 89.0;
        }
        if viewPitch < -89.0 {
          viewPitch := -89.0;
        }
        prevMouseX := x;
        prevMouseY := y;
      }
    }

    /** onMenuSelect: the chosen minification filter, with a linear
        magnification filter, goes to every texture that loaded; the
        textures that failed (name 0) are skipped, and the menu flag is
        clear again on return. */
    method MenuSelect(option: int)
      requires Valid() && 10 <= option <= 15
      modifies this
      ensures Valid()
      ensures forall i :: 0 <= i < 3 && textures[i] != 0 ==>
        textures[i] in filtering && filtering[textures[i]] == Filtering(MenuFilter(option), GlLinear)
      ensures forall t :: t == 0 || t !in textures[..] ==>
        (t in filtering <==> t in old(filtering)) && (t in filtering ==> filtering[t] == old(filtering)[t])
      ensures !isMenuOpen
      ensures rotateAngle == old(rotateAngle) && depthPos == old(depthPos)
      ensures viewPitch == old(viewPitch) && mouseRotate == old(mouseRotate)
      ensures prevMouseX == old(prevMouseX) && prevMouseY == old(prevMouseY)
    {
      isMenuOpen := true;
      var selected := MenuFilter(option);
      ApplyFilter(selected);
      isMenuOpen := false;
    }

    /** The loop of onMenuSelect over the three texture names. */
    method ApplyFilter(selected: int)
      requires textures.Length == 3
      modifies this`filtering
      ensures forall i :: 0 <= i < 3 && textures[i] != 0 ==>
        textures[i] in filtering && filtering[textures[i]] == Filtering(selected, GlLinear)
      ensures forall t :: t == 0 || t !in textures[..] ==>
        (t in filtering <==> t in old(filtering)) && (t in filtering ==> filtering[t] == old(filtering)[t])
    {
      for i := 0 to 3
        invariant forall j :: 0 <= j < i && textures[j] != 0 ==>
          textures[j] in filtering && filtering[textures[j]] == Filtering(selected, GlLinear)
        invariant forall t :: t == 0 || t !in textures[..i] ==>
          (t in filtering <==> t in old(filtering)) && (t in filtering ==> filtering[t] == old(filtering)[t])
      {
        if textures[i] != 0 {
          filtering := filtering[textures[i] := Filtering(selected, GlLinear)];
        }
        assert textures[..i + 1] == textures[..i] + [textures[i]];
      }
      assert textures[..3] == textures[..];
    }
  }
}
