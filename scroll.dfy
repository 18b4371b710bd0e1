/**
  * The virtual-scroll calculator of the `hexite-scroll` crate.
  *
  * A `Container` knows how many items a list has and how tall an average item
  * is. From the viewport height it derives a chunk size (items per viewport),
  * renders three chunks, and for each scroll position says which items to
  * render and how much blank ("virtual") space to put before and after them.
  * All arithmetic is on Rust `u32`; a debug build panics on division by zero,
  * overflow and underflow, so each of those is a precondition here.
  */
module Scroll {
  import opened Prelude

  const U32_MAX: int := 0xFFFF_FFFF

  newtype u32 = x: int | 0 <= x <= 0xFFFF_FFFF

  /** Rust's `Range<u32>`: `start..end`. */
  datatype Range = Range(start: u32, end: u32)

  /** What the list view has to lay out for one scroll position. */
  datatype LayoutUpdate = LayoutUpdate(virtualBefore: u32, itemRange: Range, virtualAfter: u32)

  /**
    * `rounding_div`: `a / b` rounded to the nearest integer, an exact half
    * rounded up. Defined when `b > 0` and `a + b / 2` fits in a `u32`.
    */
  function RoundingDiv(a: u32, b: u32): (q: u32)
    requires b > 0
    requires a as int + b as int / 2 <= U32_MAX
    ensures 2 * a as int - b as int < 2 * (q as int * b as int) <= 2 * a as int + b as int
  {
    var n := a as int + b as int / 2;
    assert n == n / b as int * b as int + n % b as int;
    (a + b / 2) / b
  }

  /** `rounding_div` returns the only integer that meets its contract. */
  lemma RoundingDivUnique(a: u32, b: u32, q: int)
    requires b > 0
    requires a as int + b as int / 2 <= U32_MAX
    requires 2 * a as int - b as int < 2 * (q * b as int) <= 2 * a as int + b as int
    ensures q == RoundingDiv(a, b) as int
  {
    var r := RoundingDiv(a, b) as int;
    if q < r {
      MulStep(q, r, b as int);
    } else if q > r {
      MulStep(r, q, b as int);
    }
  }

  class Container {
    // Fixed when the container is created: the list's length and item height.
    const numItems: u32
    const averageItemSize: u32

    var viewportSize: u32
    var itemsPerChunk: u32
    var renderedItems: u32

    var scrollPosition: u32

    /** `Container::new`: one item per chunk until the first resize. */
    constructor (numItems: u32, averageItemSize: u32)
      ensures this.numItems == numItems && this.averageItemSize == averageItemSize
      ensures viewportSize == averageItemSize
      ensures itemsPerChunk == 1 && renderedItems == 1
      ensures scrollPosition == 0
    {
      this.numItems := numItems;
      this.averageItemSize := averageItemSize;
      viewportSize := averageItemSize;
      itemsPerChunk := 1;
      renderedItems := 1;
      scrollPosition := 0;
    }

    /**
      * `on_resize`: a chunk is as many items as fit the viewport (rounded to
      * nearest) and three chunks are rendered, never more than the list holds.
      */
    method OnResize(viewportSize: u32)
      requires averageItemSize > 0
      requires viewportSize as int + averageItemSize as int / 2 <= U32_MAX
      requires 3 * RoundingDiv(viewportSize, averageItemSize) as int <= U32_MAX
      modifies this
      ensures this.viewportSize == viewportSize
      ensures itemsPerChunk == RoundingDiv(viewportSize, averageItemSize)
      ensures renderedItems as int == Min(3 * itemsPerChunk as int, numItems as int)
      ensures renderedItems <= numItems
      ensures scrollPosition == old(scrollPosition)
    {
      this.viewportSize := viewportSize;
      itemsPerChunk := RoundingDiv(this.viewportSize, averageItemSize);
      var all := itemsPerChunk * 3;
      renderedItems := if all <= numItems then all else numItems;
    }

    /**
      * Every `u32` step of `query` at scroll position `scroll` is defined:
      * no division by zero, no overflow and no underflow.
      */
    ghost predicate QueryDefinedAt(scroll: u32)
      reads this
    {
      && averageItemSize > 0
      && itemsPerChunk > 0
      && scroll as int + averageItemSize as int / 2 <= U32_MAX
      && var item := RoundingDiv(scroll, averageItemSize);
      && item as int + itemsPerChunk as int / 2 <= U32_MAX
      && var chunk := RoundingDiv(item, itemsPerChunk);
      && var first := FirstItem(chunk as int, itemsPerChunk as int);
      && first + renderedItems as int <= U32_MAX
      && first * averageItemSize as int <= U32_MAX
      && first + renderedItems as int <= numItems as int
      && (numItems as int - first - renderedItems as int) * averageItemSize as int <= U32_MAX
    }

    /** The item nearest to the scroll position (`item_at_position`). */
    function ItemAtScroll(): (item: u32)
      reads this
      requires averageItemSize > 0
      requires scrollPosition as int + averageItemSize as int / 2 <= U32_MAX
      ensures 2 * scrollPosition as int - averageItemSize as int < 2 * (item as int * averageItemSize as int)
              <= 2 * scrollPosition as int + averageItemSize as int
    {
      RoundingDiv(scrollPosition, averageItemSize)
    }

    /**
      * `query`: the rendered items start one chunk before the chunk nearest
      * to the scroll position, on a chunk boundary; the blank space before
      * and after them stands for the items that are not rendered.
      */
    function Query(): (u: LayoutUpdate)
      reads this
      requires QueryDefinedAt(scrollPosition)
      ensures u.itemRange.end as int - u.itemRange.start as int == renderedItems as int
      ensures u.itemRange.start as int == FirstItem(RoundingDiv(ItemAtScroll(), itemsPerChunk) as int, itemsPerChunk as int)
      ensures u.itemRange.end <= numItems
      ensures u.virtualBefore as int == u.itemRange.start as int * averageItemSize as int
      ensures u.virtualAfter as int == (numItems as int - u.itemRange.end as int) * averageItemSize as int
    {
      // Each `u32` step is computed exactly and stays in range, as `QueryDefinedAt` requires.
      var itemAtPosition := RoundingDiv(scrollPosition, averageItemSize);
      var chunkAtPosition := RoundingDiv(itemAtPosition, itemsPerChunk);
      var firstItem := FirstItem(chunkAtPosition as int, itemsPerChunk as int);
      var lastItem := firstItem + renderedItems as int;
      var virtualBefore := firstItem * averageItemSize as int;
      var virtualAfter := (numItems as int - firstItem - renderedItems as int) * averageItemSize as int;
      MulMono(0, firstItem, averageItemSize as int);
      MulMono(0, numItems as int - firstItem - renderedItems as int, averageItemSize as int);
      LayoutUpdate(virtualBefore as u32, Range(firstItem as u32, lastItem as u32), virtualAfter as u32)
    }

    /**
      * `on_scroll`: remembers the position and answers with exactly what
      * `query` computes for it; nothing else changes.
      */
    method OnScroll(scrollPosition: u32) returns (u: LayoutUpdate)
      requires QueryDefinedAt(scrollPosition)
      modifies this
      ensures this.scrollPosition == scrollPosition
      ensures viewportSize == old(viewportSize) && itemsPerChunk == old(itemsPerChunk)
      ensures renderedItems == old(renderedItems)
      ensures u == Query()
    {
      this.scrollPosition := scrollPosition;
      u := Query();
    }

    /**
      * What `QueryClamped` needs at scroll position `scroll`: the rounding
      * steps fit in a `u32`, the rendered items fit the list, and so does
      * the height of the whole list.
      */
    ghost predicate ClampedQueryDefinedAt(scroll: u32)
      reads this
    {
      && averageItemSize > 0
      && itemsPerChunk > 0
      && renderedItems <= numItems
      && numItems as int * averageItemSize as int <= U32_MAX
      && scroll as int + averageItemSize as int / 2 <= U32_MAX
      && RoundingDiv(scroll, averageItemSize) as int + itemsPerChunk as int / 2 <= U32_MAX
    }

    /**
      * `query` with the first item clamped to `num_items - rendered_items`:
      * near the bottom of the list the rendered items end at its last item
      * instead of running past it.
      */
    function QueryClamped(): (u: LayoutUpdate)
      reads this
      requires ClampedQueryDefinedAt(scrollPosition)
      ensures u.itemRange.end as int - u.itemRange.start as int == renderedItems as int
      ensures u.itemRange.end <= numItems
      ensures u.itemRange.start as int
              == Min(FirstItem(RoundingDiv(ItemAtScroll(), itemsPerChunk) as int, itemsPerChunk as int),
                     numItems as int - renderedItems as int)
      ensures u.virtualBefore as int == u.itemRange.start as int * averageItemSize as int
      ensures u.virtualAfter as int == (numItems as int - u.itemRange.end as int) * averageItemSize as int
    {
      var itemAtPosition := RoundingDiv(scrollPosition, averageItemSize);
      var chunkAtPosition := RoundingDiv(itemAtPosition, itemsPerChunk);
      var firstItem := Min(FirstItem(chunkAtPosition as int, itemsPerChunk as int), numItems as int - renderedItems as int);
      var lastItem := firstItem + renderedItems as int;
      var virtualBefore := firstItem * averageItemSize as int;
      var virtualAfter := (numItems as int - lastItem) * averageItemSize as int;
      MulMono(0, firstItem, averageItemSize as int);
      MulMono(firstItem, numItems as int, averageItemSize as int);
      MulMono(0, numItems as int - lastItem, averageItemSize as int);
      MulMono(numItems as int - lastItem, numItems as int, averageItemSize as int);
      LayoutUpdate(virtualBefore as u32, Range(firstItem as u32, lastItem as u32), virtualAfter as u32)
    }

    /** `on_scroll` answering with the clamped query. */
    method OnScrollClamped(scrollPosition: u32) returns (u: LayoutUpdate)
      requires ClampedQueryDefinedAt(scrollPosition)
      modifies this
      ensures this.scrollPosition == scrollPosition
      ensures viewportSize == old(viewportSize) && itemsPerChunk == old(itemsPerChunk)
      ensures renderedItems == old(renderedItems)
      ensures u == QueryClamped()
    {
      this.scrollPosition := scrollPosition;
      u := QueryClamped();
    }
  }

  lemma MulMono(x: int, y: int, m: int)
    requires x <= y && m >= 0
    ensures x * m <= y * m
  {
  }

  lemma MulStep(x: int, y: int, m: int)
    requires x < y && m >= 0
    ensures x * m + m <= y * m
  {
    MulMono(x + 1, y, m);
  }

  lemma Distribute(x: int, y: int, z: int, m: int)
    ensures x * m + y * m + z * m == (x + y + z) * m
  {
  }

  /** Division by a positive `m` has one quotient and one remainder. */
  lemma DivModUnique(p: int, m: int, q: int, r: int)
    requires m > 0 && 0 <= r < m && p == q * m + r
    ensures p / m == q && p % m == r
  {
    var q', r' := p / m, p % m;
    assert (q - q') * m == r' - r;
    if q > q' {
      MulMono(1, q - q', m);
    } else if q < q' {
      MulMono(1, q' - q, m);
    }
  }

  /** `chunk.saturating_sub(1) * ipc`: the first item of the chunk before `chunk`. */
  function FirstItem(chunk: int, ipc: int): (first: int)
    requires chunk >= 0 && ipc >= 0
    ensures first >= 0
  {
    (if chunk > 0 then chunk - 1 else 0) * ipc
  }

  /**
    * Where `query` starts rendering: one chunk before the chunk nearest to
    * `item`, which is a chunk boundary at or before `item` and less than
    * three chunks before it.
    */
  lemma ChunkStart(item: int, ipc: int, chunk: int)
    requires ipc > 0 && item >= 0 && chunk >= 0
    requires 2 * item - ipc < 2 * (chunk * ipc) <= 2 * item + ipc
    ensures var first := FirstItem(chunk, ipc);
            first <= item < first + 3 * ipc && first % ipc == 0
  {
    var k := if chunk > 0 then chunk - 1 else 0;
    DivModUnique(k * ipc, ipc, k, 0);
    if chunk > 0 {
      assert k * ipc == chunk * ipc - ipc;
    }
  }

  /**
    * Rendering starts on a chunk boundary, at or before the item at the
    * scroll position and less than three chunks before it.
    */
  lemma RenderingStartsOnChunk(c: Container)
    requires c.QueryDefinedAt(c.scrollPosition)
    ensures c.Query().itemRange.start as int % c.itemsPerChunk as int == 0
    ensures c.Query().itemRange.start <= c.ItemAtScroll()
    ensures c.ItemAtScroll() as int < c.Query().itemRange.start as int + 3 * c.itemsPerChunk as int
  {
    var item := c.ItemAtScroll();
    ChunkStart(item as int, c.itemsPerChunk as int, RoundingDiv(item, c.itemsPerChunk) as int);
  }

  /**
    * The blank space before the rendered items, their own height and the
    * blank space after them add up to the height of the whole list.
    */
  lemma VirtualSpaceAddsUp(c: Container)
    requires c.QueryDefinedAt(c.scrollPosition)
    ensures var u := c.Query();
            u.virtualBefore as int + c.renderedItems as int * c.averageItemSize as int + u.virtualAfter as int
            == c.numItems as int * c.averageItemSize as int
  {
    var u := c.Query();
    var start, rendered := u.itemRange.start as int, c.renderedItems as int;
    Distribute(start, rendered, c.numItems as int - start - rendered, c.averageItemSize as int);
  }

  /**
    * While the list has at least three chunks, the item at the scroll
    * position is one of the rendered items.
    */
  lemma ScrolledItemIsRendered(c: Container)
    requires c.QueryDefinedAt(c.scrollPosition)
    requires c.renderedItems as int == 3 * c.itemsPerChunk as int
    ensures c.Query().itemRange.start <= c.ItemAtScroll() < c.Query().itemRange.end
  {
    RenderingStartsOnChunk(c);
  }

  /**
    * Near the top of the list, where the scroll position rounds to chunk 0
    * or 1, rendering starts at the first item.
    */
  lemma TopChunksStartAtZero(c: Container)
    requires c.QueryDefinedAt(c.scrollPosition)
    requires RoundingDiv(c.ItemAtScroll(), c.itemsPerChunk) <= 1
    ensures c.Query().itemRange.start == 0
  {
  }

  /**
    * The test `test_start_edge`: 1000 items of height 10 in a viewport of
    * height 50, scrolled to 0, 15, 60, 80 and 120.
    */
  method StartEdge() returns (at0: LayoutUpdate, at15: LayoutUpdate, at60: LayoutUpdate,
                              at80: LayoutUpdate, at120: LayoutUpdate)
    ensures at0 == at15 == at60 == LayoutUpdate(0, Range(0, 15), 9850)
    ensures at80 == at120 == LayoutUpdate(50, Range(5, 20), 9800)
  {
    var container := new Container(1000, 10);
    container.OnResize(50);
    assert container.itemsPerChunk == 5 && container.renderedItems == 15;
    at0 := ScrollTo(container, 0, 0, 0);
    at15 := ScrollTo(container, 15, 2, 0);
    at60 := ScrollTo(container, 60, 6, 1);
    at80 := ScrollTo(container, 80, 8, 2);
    at120 := ScrollTo(container, 120, 12, 2);
  }

  /**
    * One scroll of `test_start_edge`: `item` and `chunk` are what the
    * position rounds to.
    */
  method ScrollTo(container: Container, scroll: u32, item: u32, chunk: u32) returns (u: LayoutUpdate)
    requires container.numItems == 1000 && container.averageItemSize == 10
    requires container.itemsPerChunk == 5 && container.renderedItems == 15
    requires scroll <= 200 && item <= 20
    requires RoundingDiv(scroll, 10) == item && RoundingDiv(item, 5) == chunk && chunk <= 2
    modifies container
    ensures container.itemsPerChunk == 5 && container.renderedItems == 15
    ensures var first := if chunk == 0 then 0 else (chunk - 1) * 5;
            u == LayoutUpdate(first * 10, Range(first, first + 15), (1000 - first - 15) * 10)
  {
    u := container.OnScroll(scroll);
  }

  /**
    * In the setting of `test_start_edge`, `query` underflows near the bottom
    * of the list: at scroll position 9950 (the last one, 10000 - 50) the
    * rendered range would end at item 1005 of 1000, so `num_items -
    * last_item` is negative. At 9900 it is still defined.
    */
  lemma BottomEdgeUnderflows(c: Container)
    requires c.numItems == 1000 && c.averageItemSize == 10
    requires c.itemsPerChunk == 5 && c.renderedItems == 15
    ensures FirstItem(RoundingDiv(RoundingDiv(9950, 10), 5) as int, 5) + c.renderedItems as int == 1005
    ensures !c.QueryDefinedAt(9950)
    ensures c.QueryDefinedAt(9900)
  {
    assert RoundingDiv(9950, 10) == 995 && RoundingDiv(995, 5) == 199;
    assert RoundingDiv(9900, 10) == 990 && RoundingDiv(990, 5) == 198;
  }

  /** Wherever `query` is defined, the clamped query gives the same layout. */
  lemma ClampedAgreesWithQuery(c: Container)
    requires c.QueryDefinedAt(c.scrollPosition) && c.ClampedQueryDefinedAt(c.scrollPosition)
    ensures c.QueryClamped() == c.Query()
  {
  }

  /** The clamped layout adds up to the height of the whole list, at every position. */
  lemma ClampedSpaceAddsUp(c: Container)
    requires c.ClampedQueryDefinedAt(c.scrollPosition)
    ensures var u := c.QueryClamped();
            u.virtualBefore as int + c.renderedItems as int * c.averageItemSize as int + u.virtualAfter as int
            == c.numItems as int * c.averageItemSize as int
  {
    var u := c.QueryClamped();
    var start, rendered := u.itemRange.start as int, c.renderedItems as int;
    Distribute(start, rendered, c.numItems as int - start - rendered, c.averageItemSize as int);
  }

  /**
    * With the chunks `on_resize` sets up, the item at any scroll position
    * within the list is among the items the clamped query renders.
    */
  lemma ClampedScrolledItemIsRendered(c: Container)
    requires c.ClampedQueryDefinedAt(c.scrollPosition)
    requires c.renderedItems as int == Min(3 * c.itemsPerChunk as int, c.numItems as int)
    requires c.ItemAtScroll() < c.numItems
    ensures c.QueryClamped().itemRange.start <= c.ItemAtScroll() < c.QueryClamped().itemRange.end
  {
    var item := c.ItemAtScroll();
    ChunkStart(item as int, c.itemsPerChunk as int, RoundingDiv(item, c.itemsPerChunk) as int);
  }

  /**
    * `test_start_edge`'s list scrolled to its bottom: at 9900 and at 9950
    * the clamped query renders the last 15 items, with nothing after them.
    */
  method BottomEdge() returns (at9900: LayoutUpdate, at9950: LayoutUpdate)
    ensures at9900 == at9950 == LayoutUpdate(9850, Range(985, 1000), 0)
  {
    var container := new Container(1000, 10);
    container.OnResize(50);
    assert container.itemsPerChunk == 5 && container.renderedItems == 15;
    assert RoundingDiv(9900, 10) == 990 && RoundingDiv(990, 5) == 198;
    at9900 := container.OnScrollClamped(9900);
    assert RoundingDiv(9950, 10) == 995 && RoundingDiv(995, 5) == 199;
    at9950 := container.OnScrollClamped(9950);
  }
}
