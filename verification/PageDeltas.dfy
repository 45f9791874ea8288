/** Page-wise difference and patch of two file images. */
module PageDeltas {
  import opened Clocks
  import opened DeltaCodec
  import opened Values

  function Least(a: nat, b: nat): nat {
    if a <= b then a else b
  }

  /** The page that starts at `start`, as much of it as the file holds. */
  function PageAt(s: Bytes, start: nat, pageSize: nat): (p: Bytes)
    ensures |p| <= pageSize
  {
    s[Least(start, |s|)..Least(start + pageSize, |s|)]
  }

  /** A truncating cast to 32 bits. */
  function Low32(n: nat): u32 {
    n % (U32_MAX + 1)
  }

  lemma Low32Fits(n: u32)
    ensures Low32(n) == n
  {
  }

  function PageCount(length: nat, pageSize: nat): nat
    requires pageSize > 0
  {
    (length + pageSize - 1) / pageSize
  }

  /** Where a page starts. */
  function Start(index: nat, pageSize: nat): nat {
    index * pageSize
  }

  lemma NextStart(index: nat, pageSize: nat)
    ensures Start(index + 1, pageSize) == Start(index, pageSize) + pageSize
  {
  }

  lemma MulLe(a: int, b: int, n: nat)
    ensures a <= b ==> a * n <= b * n
  {
    if a <= b { assert (b - a) * n >= 0; }
  }

  lemma MulCancel(a: int, b: int, n: nat)
    requires a * n < b * n
    ensures a < b
  {
    MulLe(b, a, n);
  }

  /** The changed pages from `start` on; page numbers are cut to 32 bits. */
  function ChangedPages(base: Bytes, current: Bytes, pageSize: nat, index: nat, start: nat): seq<Page>
    requires pageSize > 0
    decreases |current| - start
  {
    if start >= |current| then []
    else
      var rest := ChangedPages(base, current, pageSize, index + 1, start + pageSize);
      var page := PageAt(current, start, pageSize);
      if PageAt(base, start, pageSize) == page then rest else [Page(Low32(index), page)] + rest
  }

  function Computed(base: Bytes, current: Bytes, pageSize: nat): Delta
    requires pageSize > 0 && |current| <= U64_MAX
  {
    Delta(Low32(pageSize), |current|, ChangedPages(base, current, pageSize, 0, 0))
  }

  lemma DivCeil(length: nat, pageSize: nat, index: nat)
    requires pageSize > 0
    ensures index < PageCount(length, pageSize) <==> Start(index, pageSize) < length
  {
    var n := (length + pageSize - 1) / pageSize;
    assert n * pageSize <= length + pageSize - 1 < n * pageSize + pageSize;
    MulLe(index, n - 1, pageSize);
    MulLe(n, index, pageSize);
    assert (n - 1) * pageSize == n * pageSize - pageSize;
  }

  method ComputePageDelta(base: Bytes, current: Bytes, pageSize: nat) returns (d: Delta)
    requires pageSize > 0 && |current| <= U64_MAX
    ensures d == Computed(base, current, pageSize)
  {
    var pageCount := PageCount(|current|, pageSize);
    var pages := [];
    StartZero(pageSize);
    hide Start, PageCount, Low32, PageAt;
    for index := 0 to pageCount
      invariant pages + ChangedPages(base, current, pageSize, index, Start(index, pageSize)) ==
                ChangedPages(base, current, pageSize, 0, 0)
    {
      DivCeil(|current|, pageSize, index);
      var start := Start(index, pageSize);
      var currentPage, basePage := ReadPages(base, current, pageSize, start);
      NextStart(index, pageSize);
      if basePage != currentPage {
        pages := pages + [Page(Low32(index), currentPage)];
      }
    }
    DivCeil(|current|, pageSize, pageCount);
    assert pages + [] == pages;
    d := Delta(Low32(pageSize), |current|, pages);
  }

  lemma StartZero(pageSize: nat)
    ensures Start(0, pageSize) == 0
  {
  }

  method ReadPages(base: Bytes, current: Bytes, pageSize: nat, start: nat) returns (currentPage: Bytes, basePage: Bytes)
    requires start < |current|
    ensures currentPage == PageAt(current, start, pageSize) && basePage == PageAt(base, start, pageSize)
  {
    currentPage := current[start..Least(start + pageSize, |current|)];
    basePage := [];
    if start < |base| {
      basePage := base[start..Least(start + pageSize, |base|)];
    }
  }

  // ----- Patching

  function Zeros(n: nat): (z: Bytes)
    ensures |z| == n
  {
    seq(n, _ => 0)
  }

  function Resized(s: Bytes, n: nat): (r: Bytes)
    ensures |r| == n
    ensures forall i | 0 <= i < n :: r[i] == if i < |s| then s[i] else 0
  {
    if n <= |s| then s[..n] else s + Zeros(n - |s|)
  }

  function PatchedPage(s: Bytes, p: Page, pageSize: nat): Bytes {
    var start := Start(p.index, pageSize);
    var end := start + |p.bytes|;
    var grown := if end > |s| then Resized(s, end) else s;
    grown[..start] + p.bytes + grown[end..]
  }

  function Patched(s: Bytes, pages: seq<Page>, pageSize: nat): Bytes
    decreases |pages|
  {
    if pages == [] then s else Patched(PatchedPage(s, pages[0], pageSize), pages[1..], pageSize)
  }

  function Applied(base: Bytes, d: Delta): Bytes {
    Patched(Resized(base, d.fileSize), d.pages, d.pageSize)
  }

  method ApplyPageDelta(base: Bytes, d: Delta) returns (output: Bytes)
    ensures output == Applied(base, d)
    ensures ValidDelta(d) ==> |output| == d.fileSize
  {
    if ValidDelta(d) { PatchKeepsSize(Resized(base, d.fileSize), d.pages, d.pageSize); }
    hide Start, Resized, ValidDelta;
    output := Resized(base, d.fileSize);
    assert d.pages[0..] == d.pages;
    for i := 0 to |d.pages|
      invariant Patched(output, d.pages[i..], d.pageSize) == Applied(base, d)
    {
      var page := d.pages[i];
      assert d.pages[i..][0] == page && d.pages[i..][1..] == d.pages[i + 1..];
      var start := Start(page.index, d.pageSize);
      var end := start + |page.bytes|;
      if end > |output| {
        output := Resized(output, end);
      }
      output := output[..start] + page.bytes + output[end..];
    }
  }

  /** Whether patching ever has to grow its output. */
  predicate Grows(s: Bytes, pages: seq<Page>, pageSize: nat)
    decreases |pages|
  {
    pages != [] && (Start(pages[0].index, pageSize) + |pages[0].bytes| > |s|
                    || Grows(PatchedPage(s, pages[0], pageSize), pages[1..], pageSize))
  }

  /** Fitting pages are patched in place: the output keeps its size and never grows. */
  lemma {:induction false} PatchKeepsSize(s: Bytes, pages: seq<Page>, pageSize: nat)
    requires AllFit(pages, pageSize, |s|)
    ensures |Patched(s, pages, pageSize)| == |s| && !Grows(s, pages, pageSize)
    decreases |pages|
  {
    if pages != [] {
      assert Fits(pages[0], pageSize, |s|);
      PatchKeepsSize(PatchedPage(s, pages[0], pageSize), pages[1..], pageSize);
    }
  }

  /** Every accepted encoding yields exactly the size it announces, whatever the base. */
  lemma DecodedSize(base: Bytes, encoding: Bytes)
    requires Parsed(encoding).Ok?
    ensures var d := Parsed(encoding).value;
            |Applied(base, d)| == d.fileSize && !Grows(Resized(base, d.fileSize), d.pages, d.pageSize)
  {
    EncodeDecode(encoding);
    var d := Parsed(encoding).value;
    PatchKeepsSize(Resized(base, d.fileSize), d.pages, d.pageSize);
  }

  // ----- Patching undoes differencing

  /** Page size and page numbers fit in 32 bits. */
  predicate Representable(current: Bytes, pageSize: nat) {
    0 < pageSize <= U32_MAX && |current| <= pageSize * U32_MAX
  }

  lemma RepresentableSize(current: Bytes, pageSize: nat)
    requires Representable(current, pageSize)
    ensures |current| <= U64_MAX
  {
    assert pageSize * U32_MAX <= U32_MAX * U32_MAX;
  }

  lemma IndexFits(current: Bytes, pageSize: nat, index: nat)
    requires Representable(current, pageSize) && Start(index, pageSize) < |current|
    ensures index < U32_MAX
  {
    MulCancel(index, U32_MAX, pageSize);
  }

  /** `s` is the new file up to `start` and the base after it. */
  ghost predicate Patching(s: Bytes, base: Bytes, current: Bytes, start: nat) {
    && |s| == |current|
    && (forall i | 0 <= i < start && i < |s| :: s[i] == current[i])
    && (forall i | start <= i < |s| && i < |base| :: s[i] == base[i])
  }

  lemma SamePage(s: Bytes, base: Bytes, current: Bytes, pageSize: nat, start: nat)
    requires pageSize > 0 && start < |current| && Patching(s, base, current, start)
    requires PageAt(base, start, pageSize) == PageAt(current, start, pageSize)
    ensures Patching(s, base, current, start + pageSize)
  {
    var a, b := PageAt(base, start, pageSize), PageAt(current, start, pageSize);
    assert |a| == |b| > 0;
    forall i | start <= i < start + pageSize && i < |s| ensures s[i] == current[i] {
      assert b[i - start] == current[i] && a[i - start] == base[i];
    }
  }

  lemma NewPage(s: Bytes, base: Bytes, current: Bytes, pageSize: nat, index: u32, start: nat)
    requires pageSize > 0 && start == Start(index, pageSize) < |current| && Patching(s, base, current, start)
    ensures Patching(PatchedPage(s, Page(index, PageAt(current, start, pageSize)), pageSize), base, current,
                     start + pageSize)
  {
    var p := PageAt(current, start, pageSize);
    var t := PatchedPage(s, Page(index, p), pageSize);
    hide Start;
    assert t == s[..start] + p + s[start + |p|..];
  }

  lemma {:induction false} PatchChanged(s: Bytes, base: Bytes, current: Bytes, pageSize: nat, index: nat, start: nat)
    requires Representable(current, pageSize) && start == Start(index, pageSize) && Patching(s, base, current, start)
    ensures Patched(s, ChangedPages(base, current, pageSize, index, start), pageSize) == current
    decreases |current| - start
  {
    if start < |current| {
      IndexFits(current, pageSize, index);
      NextStart(index, pageSize);
      var page := PageAt(current, start, pageSize);
      assert pageSize > 0;
      Low32Fits(index);
      hide PatchedPage, Patching, Representable, PageAt, Start, Low32;
      if PageAt(base, start, pageSize) == page {
        SamePage(s, base, current, pageSize, start);
        PatchChanged(s, base, current, pageSize, index + 1, start + pageSize);
      } else {
        var t := PatchedPage(s, Page(index, page), pageSize);
        NewPage(s, base, current, pageSize, index, start);
        PatchChanged(t, base, current, pageSize, index + 1, start + pageSize);
      }
    }
  }

  /** Applying a computed difference to its base gives back the new file. */
  lemma ApplyComputed(base: Bytes, current: Bytes, pageSize: nat)
    requires Representable(current, pageSize)
    ensures |current| <= U64_MAX && Applied(base, Computed(base, current, pageSize)) == current
  {
    RepresentableSize(current, pageSize);
    PatchChanged(Resized(base, |current|), base, current, pageSize, 0, 0);
  }

  lemma {:induction false} ChangedFit(base: Bytes, current: Bytes, pageSize: nat, index: nat, start: nat)
    requires Representable(current, pageSize) && start == Start(index, pageSize)
    ensures var pages := ChangedPages(base, current, pageSize, index, start);
            && AllFit(pages, pageSize, |current|)
            && (pages != [] ==> |pages| * pageSize < |current| - start + pageSize)
    decreases |current| - start
  {
    if start < |current| {
      IndexFits(current, pageSize, index);
      NextStart(index, pageSize);
      Low32Fits(index);
      hide Low32, Representable;
      ChangedFit(base, current, pageSize, index + 1, start + pageSize);
      var rest := ChangedPages(base, current, pageSize, index + 1, start + pageSize);
      var page := PageAt(current, start, pageSize);
      assert Fits(Page(index, page), pageSize, |current|);
      hide Fits, PageAt, Start;
      assert (|rest| + 1) * pageSize == |rest| * pageSize + pageSize;
    }
  }

  /** A computed difference is valid, so it survives the binary form. */
  lemma ComputedValid(base: Bytes, current: Bytes, pageSize: nat)
    requires Representable(current, pageSize)
    ensures |current| <= U64_MAX && ValidDelta(Computed(base, current, pageSize))
  {
    RepresentableSize(current, pageSize);
    ChangedFit(base, current, pageSize, 0, 0);
    var n := |ChangedPages(base, current, pageSize, 0, 0)|;
    assert (U32_MAX + 1) * pageSize == U32_MAX * pageSize + pageSize;
    if n > 0 { MulCancel(n, U32_MAX + 1, pageSize); }
  }

  // ----- When nothing differs

  /** The new file is the start of the base, cut at a page boundary. */
  predicate CutAtPage(base: Bytes, current: Bytes, pageSize: nat)
    requires pageSize > 0
  {
    current <= base && |current| < |base| && |current| % pageSize == 0
  }

  lemma NextPageMod(length: nat, start: nat, pageSize: nat)
    requires pageSize > 0 && start < length
    ensures start + pageSize <= length ==> (length - start - pageSize) % pageSize == (length - start) % pageSize
    ensures start + pageSize > length ==> (length - start) % pageSize == length - start
  {
    var x := length - start;
    if pageSize <= x { ModDrop(x, pageSize); } else { ModSmall(x, pageSize); }
  }

  lemma ModSmall(x: nat, n: nat)
    requires x < n
    ensures x % n == x
  {
  }

  lemma ModDrop(x: nat, n: nat)
    requires 0 < n <= x
    ensures (x - n) % n == x % n
  {
    var q, r, q', r' := x / n, x % n, (x - n) / n, (x - n) % n;
    assert q * n + r == x && q' * n + r' == x - n;
    assert (q' + 1) * n == q' * n + n && (q' + 2) * n == q' * n + n + n && (q + 1) * n == q * n + n;
    MulCancel(q, q' + 2, n);
    MulCancel(q' + 1, q + 1, n);
  }

  lemma {:induction false} NothingChanged(base: Bytes, current: Bytes, pageSize: nat, index: nat, start: nat)
    requires pageSize > 0 && start <= |current| && start <= |base|
    ensures ChangedPages(base, current, pageSize, index, start) == [] <==>
            && current[start..] <= base[start..]
            && (|current| == |base| || (|current| - start) % pageSize == 0)
    decreases |current| - start
  {
    if start == |current| {
      ModSmall(0, pageSize);
    } else {
      var next := start + pageSize;
      if PageAt(base, start, pageSize) != PageAt(current, start, pageSize) {
        if current[start..] <= base[start..] && (|current| == |base| || (|current| - start) % pageSize == 0) {
          PrefixPages(base, current, pageSize, start);
        }
      } else if next <= |current| {
        FullPage(base, current, pageSize, start);
        NothingChanged(base, current, pageSize, index + 1, next);
      } else {
        LastPage(base, current, pageSize, start);
      }
    }
  }

  lemma FullPage(base: Bytes, current: Bytes, pageSize: nat, start: nat)
    requires pageSize > 0 && start <= |base| && start + pageSize <= |current|
    requires PageAt(base, start, pageSize) == PageAt(current, start, pageSize)
    ensures start + pageSize <= |base|
    ensures current[start..] <= base[start..] <==> current[start + pageSize..] <= base[start + pageSize..]
    ensures (|current| - start - pageSize) % pageSize == (|current| - start) % pageSize
  {
    NextPageMod(|current|, start, pageSize);
    var a, b, next := PageAt(base, start, pageSize), PageAt(current, start, pageSize), start + pageSize;
    assert |a| == |b| == pageSize;
    var c, d := current[next..], base[next..];
    assert current[start..] == a + c && base[start..] == a + d;
    if a + c <= a + d {
      forall i | 0 <= i < |c| ensures c[i] == d[i] { assert (a + c)[pageSize + i] == (a + d)[pageSize + i]; }
    }
  }

  lemma LastPage(base: Bytes, current: Bytes, pageSize: nat, start: nat)
    requires pageSize > 0 && start <= |base| && start < |current| < start + pageSize
    requires PageAt(base, start, pageSize) == PageAt(current, start, pageSize)
    ensures |base| == |current| && current[start..] <= base[start..]
  {
    var a, b := PageAt(base, start, pageSize), PageAt(current, start, pageSize);
    assert |a| == |b| < pageSize;
    assert b == current[start..] && a == base[start..];
  }

  lemma PrefixPages(base: Bytes, current: Bytes, pageSize: nat, start: nat)
    requires pageSize > 0 && start < |current| && start <= |base| && current[start..] <= base[start..]
    requires |current| == |base| || (|current| - start) % pageSize == 0
    ensures PageAt(base, start, pageSize) == PageAt(current, start, pageSize)
  {
    NextPageMod(|current|, start, pageSize);
    var a, b := PageAt(base, start, pageSize), PageAt(current, start, pageSize);
    assert |a| == |b|;
    forall i | 0 <= i < |b| ensures a[i] == b[i] {
      assert b[i] == current[start..][i] && a[i] == base[start..][i];
    }
  }

  /** The difference is empty exactly for an unchanged file and for a cut at a page boundary. */
  lemma EmptyDelta(base: Bytes, current: Bytes, pageSize: nat)
    requires pageSize > 0 && |current| <= U64_MAX
    ensures Computed(base, current, pageSize).pages == [] <==> current == base || CutAtPage(base, current, pageSize)
  {
    NothingChanged(base, current, pageSize, 0, 0);
    assert current[0..] == current && base[0..] == base;
    assert current <= base && |current| == |base| ==> current == base;
  }
}
