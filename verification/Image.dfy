/** The bytes of a pixel and the number they make up.

    An `int32` stands for its 32 bits, read as a number without sign.  On it a
    shift by whole bytes is a multiplication or division by a power of 256, and
    the union of disjoint bytes is a sum. */
module PixelBytes {
  import opened Bytes

  type int32 = n: int | 0 <= n < 0x1_0000_0000

  /** 256 to the power `n`. */
  function Place(n: nat): (p: nat)
    ensures 1 <= p
  {
    if n == 0 then 1 else 256 * Place(n - 1)
  }

  lemma Places()
    ensures Place(0) == 1 && Place(1) == 0x100 && Place(2) == 0x1_0000 && Place(3) == 0x100_0000
    ensures Place(4) == 0x1_0000_0000
  {
    assert Place(1) == 256 * Place(0);
    assert Place(2) == 256 * Place(1);
    assert Place(3) == 256 * Place(2);
    assert Place(4) == 256 * Place(3);
  }

  /** The bytes of a pixel read as one number, the most significant first. */
  function Packed(bytes: seq<byte>): nat {
    if |bytes| == 0 then 0
    else Packed(bytes[..|bytes| - 1]) * 256 + bytes[|bytes| - 1]
  }

  /** The low `n` bytes of a number, the most significant first. */
  function Unpacked(value: nat, n: nat): (bytes: seq<byte>)
    ensures |bytes| == n
  {
    if n == 0 then []
    else Unpacked(value / 256, n - 1) + [value % 256]
  }

  lemma NextMultiple(d: nat, k: int, k': int)
    requires k < k'
    ensures d * k + d <= d * k'
  {
    var n := k' - k - 1;
    assert d * (k + 1 + n) == d * k + d + d * n;
  }

  lemma SameRemainder(d: nat, k: int, rest: nat, k': int, rest': nat)
    requires d * k + rest == d * k' + rest' && rest < d && rest' < d
    ensures rest == rest' && (d > 0 ==> k == k')
  {
    if k < k' {
      NextMultiple(d, k, k');
    } else if k' < k {
      NextMultiple(d, k', k);
    }
  }

  /** The number made up by the low `n` bytes of a value. */
  function LowBytes(value: nat, n: nat): nat {
    value % Place(n)
  }

  /** What is left above the low `n` bytes. */
  function HighBytes(value: nat, n: nat): int {
    value / Place(n)
  }

  lemma HighAndLow(value: nat, n: nat)
    ensures value == Place(n) * HighBytes(value, n) + LowBytes(value, n) && LowBytes(value, n) < Place(n)
  {
    hide Place;
  }

  /** Any way to take a number apart at a multiple of `Place(n)` is this one. */
  lemma LowBytesUnique(value: nat, n: nat, high: int, low: nat)
    requires value == Place(n) * high + low && low < Place(n)
    ensures LowBytes(value, n) == low
  {
    hide *;
    HighAndLow(value, n);
    SameRemainder(Place(n), high, low, HighBytes(value, n), LowBytes(value, n));
  }

  lemma HighBytesUnique(value: nat, n: nat, high: int, low: nat)
    requires value == Place(n) * high + low && low < Place(n)
    ensures HighBytes(value, n) == high
  {
    hide *;
    HighAndLow(value, n);
    SameRemainder(Place(n), high, low, HighBytes(value, n), LowBytes(value, n));
  }

  /** The last byte moves below the low bytes of what is above it. */
  lemma Carried(value: nat, above: nat, last: nat, p: nat, high: int, low: nat)
    requires value == 256 * above + last && last < 256
    requires above == p * high + low && low < p
    ensures value == (256 * p) * high + (256 * low + last) && 256 * low + last < 256 * p
  {
    assert 256 * (p * high) == (256 * p) * high;
  }

  /** Packing the low bytes of a number gives the number without its higher
      bytes. */
  lemma {:induction false} PackedUnpacked(value: nat, n: nat)
    ensures Packed(Unpacked(value, n)) == LowBytes(value, n)
  {
    if n != 0 {
      hide LowBytes, HighBytes;
      var above, last := value / 256, value % 256;
      PackedUnpacked(above, n - 1);
      assert Unpacked(value, n)[..n - 1] == Unpacked(above, n - 1);
      HighAndLow(above, n - 1);
      var p, high, low := Place(n - 1), HighBytes(above, n - 1), LowBytes(above, n - 1);
      Carried(value, above, last, p, high, low);
      LowBytesUnique(value, n, high, 256 * low + last);
    }
  }

  /** Unpacking a packed pixel gives its bytes again. */
  lemma {:induction false} UnpackedPacked(bytes: seq<byte>)
    ensures Unpacked(Packed(bytes), |bytes|) == bytes
  {
    if |bytes| != 0 {
      var init, last := bytes[..|bytes| - 1], bytes[|bytes| - 1];
      UnpackedPacked(init);
      assert Packed(bytes) / 256 == Packed(init) && Packed(bytes) % 256 == last;
      assert bytes == init + [last];
    }
  }

  lemma {:induction false} PackedBound(bytes: seq<byte>)
    ensures Packed(bytes) < Place(|bytes|)
  {
    if |bytes| != 0 {
      PackedBound(bytes[..|bytes| - 1]);
    }
  }

  /** The byte of `value` that is `k` places above the last. */
  function ByteAt(value: nat, k: nat): byte {
    HighBytes(value, k) % 256
  }

  /** What is above the low bytes is the same after taking away the last one. */
  lemma HighBytesOfRest(value: nat, k: nat)
    requires k > 0
    ensures HighBytes(value, k) == HighBytes(value / 256, k - 1)
  {
    var above, last := value / 256, value % 256;
    assert Place(k) == 256 * Place(k - 1);
    hide LowBytes, HighBytes, Place;
    HighAndLow(above, k - 1);
    var p, high, low := Place(k - 1), HighBytes(above, k - 1), LowBytes(above, k - 1);
    Carried(value, above, last, p, high, low);
    HighBytesUnique(value, k, high, 256 * low + last);
  }

  lemma {:induction false} UnpackedBytes(value: nat, n: nat, k: nat)
    requires k < n
    ensures Unpacked(value, n)[n - 1 - k] == ByteAt(value, k)
    decreases k
  {
    if k == 0 {
      assert Place(0) == 1;
    } else {
      hide HighBytes;
      UnpackedBytes(value / 256, n - 1, k - 1);
      HighBytesOfRest(value, k);
    }
  }

  /** The first `k` bytes of a pixel, with `c` places after them. */
  function PackedHigh(pixel: seq<byte>, k: nat, c: nat): nat
    requires k <= |pixel|
  {
    Packed(pixel[..k]) * Place(c)
  }

  lemma PackedNothing(pixel: seq<byte>, c: nat)
    ensures PackedHigh(pixel, 0, c) == 0
  {
  }

  lemma PackedAll(pixel: seq<byte>)
    ensures PackedHigh(pixel, |pixel|, 0) == Packed(pixel)
  {
    assert pixel[..|pixel|] == pixel && Place(0) == 1;
  }

  /** Adding the next byte of a pixel in its place. */
  lemma PackedNext(pixel: seq<byte>, k: nat, c: nat)
    requires k < |pixel|
    ensures PackedHigh(pixel, k, c + 1) + pixel[k] * Place(c) == PackedHigh(pixel, k + 1, c)
  {
    assert pixel[..k + 1][..k] == pixel[..k];
    assert Place(c + 1) == 256 * Place(c);
    var p, b, q := Packed(pixel[..k]), pixel[k], Place(c);
    assert Packed(pixel[..k + 1]) == p * 256 + b;
    assert p * (256 * q) + b * q == (p * 256 + b) * q;
  }
}

/** Images as packed bytes, with a 32-bit view of every pixel. */
module Images {
  import opened Bytes
  import opened PixelBytes

  /** `bytes` with the first `k` bytes of `u` written from `start` on. */
  function Overwritten(bytes: seq<byte>, start: nat, u: seq<byte>, k: nat): seq<byte>
    requires k <= |u| && start + |u| <= |bytes|
  {
    bytes[..start] + u[..k] + bytes[start + k..]
  }

  lemma NothingWritten(bytes: seq<byte>, start: nat, u: seq<byte>)
    requires start + |u| <= |bytes|
    ensures Overwritten(bytes, start, u, 0) == bytes
  {
  }

  lemma WriteNext(bytes: seq<byte>, start: nat, u: seq<byte>, k: nat)
    requires k < |u| && start + |u| <= |bytes|
    ensures |Overwritten(bytes, start, u, k)| == |bytes|
    ensures Overwritten(bytes, start, u, k)[start + k := u[k]] == Overwritten(bytes, start, u, k + 1)
  {
  }

  lemma AllWritten(bytes: seq<byte>, comp: nat, pixels: nat, index: nat, value: int32)
    requires |bytes| == pixels * comp && index < pixels
    ensures index * comp + comp <= |bytes|
    ensures var r := Overwritten(bytes, index * comp, Unpacked(value, comp), comp);
      |r| == |bytes| && r == WithPixel(bytes, comp, pixels, index, value)
  {
    Segment(comp, pixels, index);
    hide Unpacked;
  }

  /** Pixels can be read and written while a component has a place in the 32 bits,
      that is, up to four components. */
  class Image {
    var x: nat
    var y: nat
    var comp: nat
    var bytes: seq<byte>

    /** The array holds every component of every pixel. */
    ghost predicate Full()
      reads this
    {
      |bytes| == x * y * comp
    }

    constructor (x: nat, y: nat, comp: nat)
      ensures Full() && this.x == x && this.y == y && this.comp == comp
      ensures forall i :: 0 <= i < |bytes| ==> bytes[i] == 0
    {
      this.x := x;
      this.y := y;
      this.comp := comp;
      bytes := seq(x * y * comp, _ => 0);
    }

    method Pixel(index: nat) returns (retval: int32)
      requires Full() && comp <= 4 && index < x * y
      ensures retval == PixelOf(bytes, comp, x * y, index)
    {
      Segment(comp, x * y, index);
      var i := index * comp;
      ghost var start: nat, pixel := i, bytes[i..i + comp];
      PackedNothing(pixel, comp);
      assert PixelOf(bytes, comp, x * y, index) == Packed(pixel);
      hide *;
      var sum := 0;
      for component := comp downto 0
        invariant i == start + (comp - component)
        invariant sum == PackedHigh(pixel, comp - component, component)
      {
        PackedNext(pixel, comp - component - 1, component);
        sum := sum + bytes[i] * Place(component);
        i := i + 1;
      }
      PackedAll(pixel);
      PackedInt32(pixel);
      retval := sum;
    }

    method SetPixel(index: nat, value: int32)
      requires Full() && comp <= 4 && index < x * y
      modifies this`bytes
      ensures Full() && bytes == WithPixel(old(bytes), comp, x * y, index, value)
    {
      AllWritten(bytes, comp, x * y, index, value);
      SetBytes(index * comp, value);
    }

    /** Writes the bytes of a pixel from a place in the array on. */
    method SetBytes(start: nat, value: int32)
      requires start + comp <= |bytes|
      modifies this`bytes
      ensures bytes == Overwritten(old(bytes), start, Unpacked(value, comp), comp)
    {
      hide *;
      ghost var u := Unpacked(value, comp);
      NothingWritten(bytes, start, u);
      var i := start;
      for component := comp downto 0
        invariant i == start + (comp - component)
        invariant bytes == Overwritten(old(bytes), start, u, comp - component)
      {
        UnpackedBytes(value, comp, component);
        WriteNext(old(bytes), start, u, comp - component - 1);
        bytes := bytes[i := ByteAt(value, component)];
        i := i + 1;
      }
    }

    /** The pixel at a column and a row. */
    method PixelAt(column: nat, row: nat) returns (retval: int32)
      requires Full() && comp <= 4 && column * row < |bytes| && row * x + column < x * y
      ensures retval == PixelOf(bytes, comp, x * y, row * x + column)
    {
      retval := Pixel(row * x + column);
    }

    method SetPixelAt(column: nat, row: nat, value: int32)
      requires Full() && comp <= 4 && column * row < |bytes| && row * x + column < x * y
      modifies this`bytes
      ensures Full() && bytes == WithPixel(old(bytes), comp, x * y, row * x + column, value)
    {
      SetPixel(row * x + column, value);
    }

    method Resize(x: nat, y: nat)
      requires Full()
      modifies this
      ensures Full() && this.x == x && this.y == y && comp == old(comp)
      ensures bytes == Resized(old(bytes), x * y * comp)
    {
      bytes := Resized(bytes, x * y * comp);
      this.x := x;
      this.y := y;
    }

    method SetX(value: nat)
      requires Full()
      modifies this
      ensures Full() && x == value && y == old(y) && comp == old(comp)
      ensures bytes == Resized(old(bytes), value * y * comp)
    {
      bytes := Resized(bytes, value * y * comp);
      x := value;
    }

    method SetY(value: nat)
      requires Full()
      modifies this
      ensures Full() && x == old(x) && y == value && comp == old(comp)
      ensures bytes == Resized(old(bytes), x * value * comp)
    {
      bytes := Resized(bytes, x * value * comp);
      y := value;
    }

    method SetComp(value: nat)
      requires Full() && value <= 4
      modifies this
      ensures Full() && x == old(x) && y == old(y) && comp == value
      ensures bytes == Resized(old(bytes), x * y * value)
    {
      bytes := Resized(bytes, x * y * value);
      comp := value;
    }

    /** Overwrites the first bytes of the array. */
    method SetArray(value: seq<byte>)
      requires Full() && |value| <= x * y * comp
      modifies this`bytes
      ensures Full() && bytes == value + old(bytes)[|value|..]
    {
      bytes := value + bytes[|value|..];
    }

    method Swap(img: Image)
      modifies this, img
      ensures x == old(img.x) && y == old(img.y) && comp == old(img.comp) && bytes == old(img.bytes)
      ensures img.x == old(x) && img.y == old(y) && img.comp == old(comp) && img.bytes == old(bytes)
    {
      x, img.x := img.x, x;
      y, img.y := img.y, y;
      comp, img.comp := img.comp, comp;
      bytes, img.bytes := img.bytes, bytes;
    }
  }

  lemma PackedInt32(pixel: seq<byte>)
    requires |pixel| <= 4
    ensures Packed(pixel) < 0x1_0000_0000
  {
    PackedBound(pixel);
    Places();
  }

  lemma Segment(comp: nat, n: nat, index: nat)
    requires index < n
    ensures 0 <= index * comp <= index * comp + comp <= n * comp
  {
    NextMultiple(comp, index, n);
  }

  /** The pixel with a given index, in an array of `n` pixels. */
  function PixelOf(bytes: seq<byte>, comp: nat, n: nat, index: nat): nat
    requires |bytes| == n * comp && index < n
  {
    Segment(comp, n, index);
    Packed(bytes[index * comp..index * comp + comp])
  }

  function WithPixel(bytes: seq<byte>, comp: nat, n: nat, index: nat, value: int32): (r: seq<byte>)
    requires |bytes| == n * comp && index < n
    ensures |r| == |bytes|
  {
    Segment(comp, n, index);
    bytes[..index * comp] + Unpacked(value, comp) + bytes[index * comp + comp..]
  }

  /** A vector's bytes cut off, or filled up with zeros. */
  function Resized(bytes: seq<byte>, n: nat): seq<byte> {
    if n <= |bytes| then bytes[..n] else bytes + seq(n - |bytes|, _ => 0)
  }

  lemma SegmentsDisjoint(comp: nat, n: nat, i: nat, j: nat)
    requires i < j < n
    ensures i * comp + comp <= j * comp
  {
    Segment(comp, j, i);
  }

  /** A written pixel reads back as the low bytes of what was written, and all
      other pixels read as before. */
  lemma ReadAfterWrite(bytes: seq<byte>, comp: nat, n: nat, i: nat, value: int32, j: nat)
    requires |bytes| == n * comp && i < n && j < n
    ensures PixelOf(WithPixel(bytes, comp, n, i, value), comp, n, j)
         == if j == i then LowBytes(value, comp) else PixelOf(bytes, comp, n, j)
  {
    Segment(comp, n, i);
    Segment(comp, n, j);
    var w := WithPixel(bytes, comp, n, i, value);
    if j == i {
      assert w[i * comp..i * comp + comp] == Unpacked(value, comp);
      PackedUnpacked(value, comp);
    } else {
      if i < j {
        SegmentsDisjoint(comp, n, i, j);
      } else {
        SegmentsDisjoint(comp, n, j, i);
      }
      assert w[j * comp..j * comp + comp] == bytes[j * comp..j * comp + comp];
    }
  }

  /** Writing back what was read changes nothing. */
  lemma WriteBack(bytes: seq<byte>, comp: nat, n: nat, i: nat)
    requires |bytes| == n * comp && i < n && comp <= 4
    ensures PixelOf(bytes, comp, n, i) < 0x1_0000_0000
    ensures WithPixel(bytes, comp, n, i, PixelOf(bytes, comp, n, i)) == bytes
  {
    Segment(comp, n, i);
    var pixel := bytes[i * comp..i * comp + comp];
    PackedInt32(pixel);
    UnpackedPacked(pixel);
    assert bytes == bytes[..i * comp] + pixel + bytes[i * comp + comp..];
  }

  /** With four components the whole value comes back. */
  lemma FourComponentsKeepValue(value: int32)
    ensures LowBytes(value, 4) == value
  {
    Places();
  }

  /** Different columns and rows within the image have different indices, all of
      them in range. */
  lemma PositionsDistinct(x: nat, y: nat, column: nat, row: nat, column': nat, row': nat)
    requires column < x && row < y && column' < x && row' < y
    ensures row * x + column < x * y
    ensures row * x + column == row' * x + column' ==> column == column' && row == row'
  {
    Segment(x, y, row);
    if row < row' {
      SegmentsDisjoint(x, y, row, row');
    } else if row' < row {
      SegmentsDisjoint(x, y, row', row);
    }
  }

  /** The accessors by column and row check the product of the two against the
      size of the array.  Every position in the image passes, unless there are
      no components at all; a row beyond the image passes too, at column 0. */
  lemma PositionCheck(x: nat, y: nat, comp: nat, column: nat, row: nat)
    requires column < x && row < y
    ensures column * row < x * y * comp <==> comp != 0
    ensures comp != 0 ==> 0 * y < x * y * comp && !(y * x + 0 < x * y)
  {
    Segment(x, y, row);
    assert column * row <= x * row;
    if comp == 0 {
      assert x * y * comp == 0;
      assert column * row >= 0;
    } else {
      assert x * y * comp == x * y + x * y * (comp - 1);
    }
  }

  /** A pixel keeps its value when its index is in both images. */
  lemma ResizedKeepsIndex(bytes: seq<byte>, comp: nat, n: nat, n': nat, i: nat)
    requires |bytes| == n * comp && i < n && i < n'
    ensures |Resized(bytes, n' * comp)| == n' * comp
    ensures PixelOf(Resized(bytes, n' * comp), comp, n', i) == PixelOf(bytes, comp, n, i)
  {
    var r := Resized(bytes, n' * comp);
    Segment(comp, n, i);
    Segment(comp, n', i);
    assert r[i * comp..i * comp + comp] == bytes[i * comp..i * comp + comp];
  }

  /** Changing the number of rows keeps every pixel that is in both images. */
  lemma ResizedRowsKeepPixels(bytes: seq<byte>, comp: nat, x: nat, y: nat, y': nat, column: nat, row: nat)
    requires |bytes| == x * y * comp && column < x && row < y && row < y'
    ensures var r := Resized(bytes, x * y' * comp);
      && |r| == x * y' * comp
      && row * x + column < x * y && row * x + column < x * y'
      && PixelOf(r, comp, x * y', row * x + column) == PixelOf(bytes, comp, x * y, row * x + column)
  {
    PositionsDistinct(x, y, column, row, column, row);
    PositionsDistinct(x, y', column, row, column, row);
    ResizedKeepsIndex(bytes, comp, x * y, x * y', row * x + column);
  }

  /** The pixels that are new in a resized image are black. */
  lemma NewPixelsAreBlack(bytes: seq<byte>, comp: nat, n: nat, n': nat, i: nat)
    requires |bytes| == n * comp && n <= i < n'
    ensures |Resized(bytes, n' * comp)| == n' * comp
    ensures PixelOf(Resized(bytes, n' * comp), comp, n', i) == 0
  {
    var r := Resized(bytes, n' * comp);
    Segment(comp, n', i);
    if n < i {
      Segment(comp, i, n);
    }
    var pixel := r[i * comp..i * comp + comp];
    assert forall k :: 0 <= k < comp ==> pixel[k] == 0;
    AllZero(pixel);
  }

  lemma {:induction false} AllZero(pixel: seq<byte>)
    requires forall k :: 0 <= k < |pixel| ==> pixel[k] == 0
    ensures Packed(pixel) == 0
  {
    if pixel != [] {
      AllZero(pixel[..|pixel| - 1]);
    }
  }

  lemma LastByte(pixel: seq<byte>)
    requires pixel != []
    ensures Packed(pixel) % 256 == pixel[|pixel| - 1]
  {
  }

  /** An array that is zero but for the last byte of pixel `i`. */
  function OneByte(comp: nat, n: nat, i: nat): (bytes: seq<byte>)
    requires 0 < comp && i < n
    ensures |bytes| == n * comp
  {
    Segment(comp, n, i);
    seq(n * comp, k => 0)[i * comp + comp - 1 := 255]
  }

  /** The byte of a resized image at which the one byte would be, were it there. */
  lemma OneByteResized(comp: nat, n: nat, i: nat, size: nat, k: nat)
    requires 0 < comp && i < n && k < size
    ensures |Resized(OneByte(comp, n, i), size)| == size
    ensures Resized(OneByte(comp, n, i), size)[k] == if k == i * comp + comp - 1 then 255 else 0
  {
    Segment(comp, n, i);
  }

  /** In a resized image, pixel `j` does not hold what pixel `i` held. */
  lemma OneByteTellsApart(comp: nat, n: nat, n': nat, i: nat, j: nat)
    requires 0 < comp && i < n && j < n' && i != j
    ensures |Resized(OneByte(comp, n, i), n' * comp)| == n' * comp
    ensures PixelOf(Resized(OneByte(comp, n, i), n' * comp), comp, n', j) != PixelOf(OneByte(comp, n, i), comp, n, i)
  {
    var bytes := OneByte(comp, n, i);
    var size := n' * comp;
    var r := Resized(bytes, size);
    Segment(comp, n, i);
    Segment(comp, n', j);
    var last := j * comp + comp - 1;
    OneByteResized(comp, n, i, size, last);
    if i < j {
      SegmentsDisjoint(comp, j + 1, i, j);
    } else {
      SegmentsDisjoint(comp, i + 1, j, i);
    }
    assert r[last] == 0;
    LastByteOfPixel(bytes, comp, n, i);
    LastByteOfPixel(r, comp, n', j);
  }

  lemma LastByteOfPixel(bytes: seq<byte>, comp: nat, n: nat, i: nat)
    requires |bytes| == n * comp && i < n && 0 < comp
    ensures i * comp + comp <= |bytes|
    ensures PixelOf(bytes, comp, n, i) % 256 == bytes[i * comp + comp - 1]
  {
    Segment(comp, n, i);
    var pixel := bytes[i * comp..i * comp + comp];
    LastByte(pixel);
    hide Packed;
  }

  lemma SameIndex(x: nat, x': nat, row: nat, column: nat)
    ensures row * x + column == row * x' + column <==> row == 0 || x == x'
  {
    if row != 0 {
      if x < x' {
        NextMultiple(row, x, x');
      } else if x' < x {
        NextMultiple(row, x', x);
      }
    }
  }

  /** Resizing puts the old pixel `i` at `j`, whatever the array holds, exactly when
      they are the same or there are no components. */
  lemma KeepsPixelExactly(comp: nat, n: nat, n': nat, i: nat, j: nat)
    requires i < n && j < n'
    ensures (forall bytes: seq<byte> :: |bytes| == n * comp ==>
              && |Resized(bytes, n' * comp)| == n' * comp
              && PixelOf(Resized(bytes, n' * comp), comp, n', j) == PixelOf(bytes, comp, n, i))
       <==> i == j || comp == 0
  {
    hide *;
    if i == j || comp == 0 {
      forall bytes: seq<byte> | |bytes| == n * comp
        ensures |Resized(bytes, n' * comp)| == n' * comp
        ensures PixelOf(Resized(bytes, n' * comp), comp, n', j) == PixelOf(bytes, comp, n, i)
      {
        if comp == 0 {
          NoComponents(bytes, n, n', i, j);
        } else {
          ResizedKeepsIndex(bytes, comp, n, n', i);
        }
      }
    } else {
      OneByteTellsApart(comp, n, n', i, j);
    }
  }

  function Area(x: nat, y: nat): nat {
    x * y
  }

  function IndexOf(x: nat, column: nat, row: nat): nat {
    row * x + column
  }

  /** A pixel at a column and a row that are in both images has the same value
      before and after resizing, whatever the array holds, exactly when it is in
      the first row, the number of columns stays, or there are no components. */
  lemma ResizedKeepsPixelExactly(comp: nat, x: nat, y: nat, x': nat, y': nat, column: nat, row: nat)
    requires column < x && column < x' && row < y && row < y'
    ensures IndexOf(x, column, row) < Area(x, y) && IndexOf(x', column, row) < Area(x', y')
    ensures (forall bytes: seq<byte> :: |bytes| == Area(x, y) * comp ==>
              && |Resized(bytes, Area(x', y') * comp)| == Area(x', y') * comp
              && PixelOf(Resized(bytes, Area(x', y') * comp), comp, Area(x', y'), IndexOf(x', column, row))
                 == PixelOf(bytes, comp, Area(x, y), IndexOf(x, column, row)))
       <==> row == 0 || x == x' || comp == 0
  {
    PositionsDistinct(x, y, column, row, column, row);
    PositionsDistinct(x', y', column, row, column, row);
    SameIndex(x, x', row, column);
    assert IndexOf(x, column, row) < Area(x, y) && IndexOf(x', column, row) < Area(x', y');
    assert IndexOf(x, column, row) == IndexOf(x', column, row) <==> row == 0 || x == x';
    hide *;
    KeepsPixelExactly(comp, Area(x, y), Area(x', y'), IndexOf(x, column, row), IndexOf(x', column, row));
  }

  lemma NoComponents(bytes: seq<byte>, n: nat, n': nat, i: nat, j: nat)
    requires |bytes| == n * 0 && i < n && j < n'
    ensures |Resized(bytes, n' * 0)| == n' * 0
    ensures PixelOf(Resized(bytes, n' * 0), 0, n', j) == PixelOf(bytes, 0, n, i)
  {
    assert bytes == [] && Resized(bytes, 0) == [];
  }

  /** Changing the number of columns moves pixels between rows: the last pixel
      of the first row becomes the first pixel of the second. */
  lemma ResizedColumnsMovePixels()
    ensures var bytes: seq<byte> := [1, 2, 3, 4];
      var r := Resized(bytes, 1 * 2 * 1);
      && PixelOf(bytes, 1, 2 * 2, 1 * 2 + 0) == 3
      && PixelOf(r, 1, 1 * 2, 1 * 1 + 0) == 2
  {
    var bytes: seq<byte> := [1, 2, 3, 4];
    var r := Resized(bytes, 2);
    assert bytes[2..3] == [3] && r[1..2] == [2];
    assert Packed([3]) == 3 by { assert [3][..0] == []; }
    assert Packed([2]) == 2 by { assert [2][..0] == []; }
  }
}
