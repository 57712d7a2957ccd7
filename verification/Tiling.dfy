/** How an image is cut into strip columns, windows of rows, and slots. */
module Tiling {
  import opened Basics

  /** Blocks of `size` pixels needed to cover `extent` pixels. */
  function BlockCount(extent: nat, size: nat): nat
    requires size > 0
  {
    (extent + size - 1) / size
  }

  /** The width chosen when none is configured. */
  function AutoStripWidth(cols: nat, oblique: nat, rows: nat, align: nat): nat
    requires align > 0
  {
    (cols * oblique + rows + align - 1) / align * align
  }

  lemma QuotientBounds(a: nat, b: nat)
    requires b > 0
    ensures a / b * b <= a < a / b * b + b
  {
  }

  lemma MultiplyMonotone(a: nat, b: nat, c: nat)
    requires a <= b
    ensures a * c <= b * c
  {
  }

  /** The automatic width is the least multiple of `align` that is no less than cols * oblique + rows. */
  lemma AutoStripWidthIsLeast(cols: nat, oblique: nat, rows: nat, align: nat, k: nat)
    requires align > 0
    ensures exists m: nat :: AutoStripWidth(cols, oblique, rows, align) == m * align
    ensures k * align >= cols * oblique + rows <==> k * align >= AutoStripWidth(cols, oblique, rows, align)
  {
    var raw := cols * oblique + rows;
    var m := (raw + align - 1) / align;
    QuotientBounds(raw + align - 1, align);
    assert AutoStripWidth(cols, oblique, rows, align) == m * align;
    if k >= m {
      MultiplyMonotone(m, k, align);
    } else {
      MultiplyMonotone(k, m - 1, align);
      assert (m - 1) * align == m * align - align;
    }
  }

  /** Pixel (x, y) lies in the block of this column and row. */
  predicate InBlock(col: nat, row: nat, width: nat, height: nat, x: nat, y: nat) {
    col * width <= x < col * width + width && row * height <= y < row * height + height
  }

  /** A slot the driver issues: a window starting at `row0` and a position `local` in it. */
  predicate Issued(row0: nat, local: nat, nrows: nat, window: nat)
    requires window > 0
  {
    row0 % window == 0 && row0 < nrows && local < Min(window, nrows - row0)
  }

  lemma OnlyQuotient(x: nat, size: nat, q: nat)
    requires size > 0
    ensures q * size <= x < q * size + size <==> q == x / size
  {
    QuotientBounds(x, size);
    if q < x / size {
      MultiplyMonotone(q + 1, x / size, size);
      assert (q + 1) * size == q * size + size;
    } else if q > x / size {
      MultiplyMonotone(x / size + 1, q, size);
      assert (x / size + 1) * size == x / size * size + size;
    }
  }

  lemma BlockCountCovers(extent: nat, size: nat, q: nat)
    requires size > 0
    ensures q < BlockCount(extent, size) <==> q * size < extent
  {
    QuotientBounds(extent + size - 1, size);
    if q < BlockCount(extent, size) {
      MultiplyMonotone(q + 1, BlockCount(extent, size), size);
      assert (q + 1) * size == q * size + size;
    } else {
      MultiplyMonotone(BlockCount(extent, size), q, size);
    }
  }

  lemma OnlyWindow(row: nat, window: nat, row0: nat, local: nat)
    requires window > 0 && row0 % window == 0 && local < window
    ensures row == row0 + local <==> row0 == row - row % window && local == row % window
  {
    var k := row0 / window;
    assert row0 == k * window;
    if row == row0 + local {
      OnlyQuotient(row, window, k);
    }
  }

  /** Every pixel belongs to exactly one column and one issued slot. */
  lemma PixelHasOneSlot(imgW: nat, imgH: nat, width: nat, height: nat, window: nat, x: nat, y: nat,
                        col: nat, row0: nat, local: nat)
    requires width > 0 && height > 0 && window > 0 && x < imgW && y < imgH
    ensures var row := y / height;
            (col < BlockCount(imgW, width) && Issued(row0, local, BlockCount(imgH, height), window) &&
             InBlock(col, row0 + local, width, height, x, y)) <==>
            (col == x / width && row0 == row - row % window && local == row % window)
  {
    var row, nrows := y / height, BlockCount(imgH, height);
    OnlyQuotient(x, width, col);
    OnlyQuotient(y, height, row0 + local);
    BlockCountCovers(imgW, width, x / width);
    BlockCountCovers(imgH, height, row);
    QuotientBounds(x, width);
    QuotientBounds(y, height);
    WindowStart(row, window);
    if row0 % window == 0 && local < window {
      OnlyWindow(row, window, row0, local);
    }
  }

  lemma WindowStart(row: nat, window: nat)
    requires window > 0
    ensures row % window <= row && (row - row % window) % window == 0
  {
    var k := row / window;
    assert row - row % window == k * window;
    OnlyQuotient(k * window, window, k);
  }

  /** Every issued block contains a pixel of the image: its top left one. */
  lemma NoEmptyBlock(imgW: nat, imgH: nat, width: nat, height: nat, window: nat, col: nat, row0: nat, local: nat)
    requires width > 0 && height > 0 && window > 0
    requires col < BlockCount(imgW, width) && Issued(row0, local, BlockCount(imgH, height), window)
    ensures var x, y := col * width, (row0 + local) * height;
            x < imgW && y < imgH && InBlock(col, row0 + local, width, height, x, y)
  {
    BlockCountCovers(imgW, width, col);
    BlockCountCovers(imgH, height, row0 + local);
  }
}
