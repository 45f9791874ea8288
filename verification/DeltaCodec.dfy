/** The binary form of a page delta, with the widths of its integers. */
module DeltaCodec {
  import opened Clocks
  import opened Values

  const U32_MAX: nat := 0xFFFF_FFFF

  type u32 = n: nat | n <= U32_MAX

  type Bytes = seq<byte>

  datatype Page = Page(index: u32, bytes: Bytes)

  datatype Delta = Delta(pageSize: u32, fileSize: u64, pages: seq<Page>)

  datatype Result<+T> = Ok(value: T) | Err

  // "LSD1"
  const MAGIC: Bytes := [0x4C, 0x53, 0x44, 0x31]

  // ----- Little-endian integers

  function Pow256(k: nat): nat {
    if k == 0 then 1 else 256 * Pow256(k - 1)
  }

  /** The low `k` bytes, least significant first. */
  function ToLe(n: nat, k: nat): (s: Bytes)
    ensures |s| == k
  {
    if k == 0 then [] else [n % 256] + ToLe(n / 256, k - 1)
  }

  function FromLe(s: Bytes): nat {
    if s == [] then 0 else s[0] + 256 * FromLe(s[1..])
  }

  lemma {:induction false} LeRoundTrip(n: nat, k: nat)
    requires n < Pow256(k)
    ensures FromLe(ToLe(n, k)) == n
  {
    if k > 0 {
      LeRoundTrip(n / 256, k - 1);
      assert ToLe(n, k)[1..] == ToLe(n / 256, k - 1);
    }
  }

  lemma {:induction false} LeUnique(s: Bytes)
    ensures FromLe(s) < Pow256(|s|) && ToLe(FromLe(s), |s|) == s
  {
    if s != [] {
      LeUnique(s[1..]);
      assert FromLe(s) % 256 == s[0] && FromLe(s) / 256 == FromLe(s[1..]);
      assert [s[0]] + s[1..] == s;
    }
  }

  lemma Widths()
    ensures Pow256(4) == U32_MAX + 1 && Pow256(8) == U64_MAX + 1
  {
    assert Pow256(3) == 0x100_0000;
    assert Pow256(4) == 0x1_0000_0000;
    assert Pow256(7) == 0x100_0000_0000_0000;
  }

  function ReadU32(s: Bytes): u32
    requires |s| >= 4
  {
    Widths();
    LeUnique(s[..4]);
    FromLe(s[..4])
  }

  function ReadU64(s: Bytes): u64
    requires |s| >= 8
  {
    Widths();
    LeUnique(s[..8]);
    FromLe(s[..8])
  }

  lemma ReadBack32(n: u32, rest: Bytes)
    ensures |ToLe(n, 4) + rest| >= 4 && ReadU32(ToLe(n, 4) + rest) == n && (ToLe(n, 4) + rest)[4..] == rest
  {
    Widths();
    LeRoundTrip(n, 4);
    assert (ToLe(n, 4) + rest)[..4] == ToLe(n, 4);
  }

  lemma ReadBack64(n: u64, rest: Bytes)
    ensures |ToLe(n, 8) + rest| >= 8 && ReadU64(ToLe(n, 8) + rest) == n && (ToLe(n, 8) + rest)[8..] == rest
  {
    Widths();
    LeRoundTrip(n, 8);
    assert (ToLe(n, 8) + rest)[..8] == ToLe(n, 8);
  }

  lemma WriteBack32(s: Bytes)
    requires |s| >= 4
    ensures ToLe(ReadU32(s), 4) + s[4..] == s
  {
    LeUnique(s[..4]);
  }

  lemma WriteBack64(s: Bytes)
    requires |s| >= 8
    ensures ToLe(ReadU64(s), 8) + s[8..] == s
  {
    LeUnique(s[..8]);
  }

  // ----- Encoding

  function EncodedPage(p: Page): (s: Bytes)
    requires |p.bytes| <= U32_MAX
    ensures |s| == 8 + |p.bytes|
  {
    ToLe(p.index, 4) + ToLe(|p.bytes|, 4) + p.bytes
  }

  predicate Writable(pages: seq<Page>) {
    forall i | 0 <= i < |pages| :: |pages[i].bytes| <= U32_MAX
  }

  function EncodedPages(pages: seq<Page>): (s: Bytes)
    requires Writable(pages)
    ensures |s| >= 8 * |pages|
  {
    if pages == [] then [] else EncodedPage(pages[0]) + EncodedPages(pages[1..])
  }

  function Encoded(d: Delta): Result<Bytes> {
    if |d.pages| > U32_MAX || !Writable(d.pages) then Err
    else Ok(MAGIC + (ToLe(d.pageSize, 4) + (ToLe(d.fileSize, 8) + (ToLe(|d.pages|, 4) + EncodedPages(d.pages)))))
  }

  method EncodeSqliteDelta(d: Delta) returns (r: Result<Bytes>)
    ensures r == Encoded(d)
  {
    if |d.pages| > U32_MAX {
      return Err;
    }
    ghost var head := MAGIC + ToLe(d.pageSize, 4) + ToLe(d.fileSize, 8) + ToLe(|d.pages|, 4);
    var out := MAGIC;
    out := out + ToLe(d.pageSize, 4);
    out := out + ToLe(d.fileSize, 8);
    out := out + ToLe(|d.pages|, 4);
    assert d.pages[..0] == [];
    assert out == head + [];
    for i := 0 to |d.pages|
      invariant Writable(d.pages[..i]) && out == head + EncodedPages(d.pages[..i])
    {
      var page := d.pages[i];
      if |page.bytes| > U32_MAX {
        return Err;
      }
      assert d.pages[..i + 1] == d.pages[..i] + [page];
      EncodedPagesSnoc(d.pages[..i], page);
      out := out + ToLe(page.index, 4);
      out := out + ToLe(|page.bytes|, 4);
      out := out + page.bytes;
    }
    assert d.pages[..|d.pages|] == d.pages;
    assert out == MAGIC + (ToLe(d.pageSize, 4) + (ToLe(d.fileSize, 8) + (ToLe(|d.pages|, 4) + EncodedPages(d.pages))));
    return Ok(out);
  }

  lemma {:induction false} EncodedPagesSnoc(pages: seq<Page>, p: Page)
    requires Writable(pages) && |p.bytes| <= U32_MAX
    ensures Writable(pages + [p])
    ensures EncodedPages(pages + [p]) == EncodedPages(pages) + EncodedPage(p)
  {
    var both := pages + [p];
    if pages == [] {
      assert both[1..] == [];
    } else {
      EncodedPagesSnoc(pages[1..], p);
      assert both[0] == pages[0] && both[1..] == pages[1..] + [p];
    }
  }

  // ----- Decoding

  /** The page bounds that decoding enforces. */
  predicate Fits(p: Page, pageSize: nat, fileSize: nat) {
    |p.bytes| <= pageSize && p.index * pageSize + |p.bytes| <= fileSize
  }

  predicate AllFit(pages: seq<Page>, pageSize: nat, fileSize: nat) {
    forall i | 0 <= i < |pages| :: Fits(pages[i], pageSize, fileSize)
  }

  predicate ValidDelta(d: Delta) {
    d.pageSize > 0 && |d.pages| <= U32_MAX && AllFit(d.pages, d.pageSize, d.fileSize)
  }

  /** Exactly `n` fitting pages and nothing after them. */
  function ParsedPages(s: Bytes, n: nat, pageSize: u32, fileSize: u64): Result<seq<Page>>
    decreases n
  {
    if n == 0 then (if s == [] then Ok([]) else Err)
    else if |s| < 8 then Err
    else
      var length := ReadU32(s[4..]);
      if |s| < 8 + length then Err
      else
        var page := Page(ReadU32(s), s[8..8 + length]);
        if !Fits(page, pageSize, fileSize) then Err
        else
          var rest := ParsedPages(s[8 + length..], n - 1, pageSize, fileSize);
          if rest.Err? then Err else Ok([page] + rest.value)
  }

  function Parsed(s: Bytes): Result<Delta> {
    if |s| < 20 || s[..4] != MAGIC then Err
    else
      var pageSize, fileSize, n := ReadU32(s[4..]), ReadU64(s[8..]), ReadU32(s[16..]);
      if pageSize == 0 then Err
      else
        var pages := ParsedPages(s[20..], n, pageSize, fileSize);
        if pages.Err? then Err else Ok(Delta(pageSize, fileSize, pages.value))
  }

  lemma FitsIsWritable(d: Delta)
    requires ValidDelta(d)
    ensures Writable(d.pages)
  {
    forall i | 0 <= i < |d.pages| ensures |d.pages[i].bytes| <= U32_MAX {
      assert Fits(d.pages[i], d.pageSize, d.fileSize);
    }
  }

  lemma ParsePage(p: Page, rest: Bytes)
    requires |p.bytes| <= U32_MAX
    ensures var s := EncodedPage(p) + rest;
            && |s| >= 8 + |p.bytes| && ReadU32(s) == p.index && ReadU32(s[4..]) == |p.bytes|
            && s[8..8 + |p.bytes|] == p.bytes && s[8 + |p.bytes|..] == rest
  {
    var s := EncodedPage(p) + rest;
    ReadBack32(p.index, ToLe(|p.bytes|, 4) + p.bytes + rest);
    assert s == ToLe(p.index, 4) + (ToLe(|p.bytes|, 4) + p.bytes + rest);
    ReadBack32(|p.bytes|, p.bytes + rest);
    assert s[4..] == ToLe(|p.bytes|, 4) + (p.bytes + rest);
  }

  lemma {:induction false} ParsePages(pages: seq<Page>, pageSize: u32, fileSize: u64)
    requires Writable(pages) && AllFit(pages, pageSize, fileSize)
    ensures ParsedPages(EncodedPages(pages), |pages|, pageSize, fileSize) == Ok(pages)
  {
    if pages != [] {
      ParsePages(pages[1..], pageSize, fileSize);
      ParsePage(pages[0], EncodedPages(pages[1..]));
      hide ReadU32, EncodedPage;
      assert Fits(pages[0], pageSize, fileSize);
      assert [pages[0]] + pages[1..] == pages;
    }
  }

  lemma WritePage(s: Bytes, length: nat)
    requires |s| >= 8 && length == ReadU32(s[4..]) && |s| >= 8 + length
    ensures EncodedPage(Page(ReadU32(s), s[8..8 + length])) + s[8 + length..] == s
  {
    WriteBack32(s);
    WriteBack32(s[4..]);
    hide ReadU32, ToLe;
    var page, rest := Page(ReadU32(s), s[8..8 + length]), s[8 + length..];
    assert s[4..][4..] == page.bytes + rest;
    assert EncodedPage(page) + rest == ToLe(page.index, 4) + (ToLe(length, 4) + (page.bytes + rest));
  }

  lemma {:induction false} WritePages(s: Bytes, n: nat, pageSize: u32, fileSize: u64)
    requires ParsedPages(s, n, pageSize, fileSize).Ok?
    ensures var pages := ParsedPages(s, n, pageSize, fileSize).value;
            && |pages| == n && Writable(pages) && AllFit(pages, pageSize, fileSize) && EncodedPages(pages) == s
    decreases n
  {
    if n > 0 {
      var length := ReadU32(s[4..]);
      WritePage(s, length);
      hide ReadU32, EncodedPage;
      WritePages(s[8 + length..], n - 1, pageSize, fileSize);
    }
  }

  lemma Header(pageSize: u32, fileSize: u64, n: u32, rest: Bytes)
    ensures var s := MAGIC + (ToLe(pageSize, 4) + (ToLe(fileSize, 8) + (ToLe(n, 4) + rest)));
            && |s| >= 20 && s[..4] == MAGIC && ReadU32(s[4..]) == pageSize && ReadU64(s[8..]) == fileSize
            && ReadU32(s[16..]) == n && s[20..] == rest
  {
    var c := ToLe(n, 4) + rest;
    var b := ToLe(fileSize, 8) + c;
    var a := ToLe(pageSize, 4) + b;
    var s := MAGIC + a;
    ReadBack32(pageSize, b);
    ReadBack64(fileSize, c);
    ReadBack32(n, rest);
    hide ReadU32, ReadU64, ToLe;
    assert s[4..] == a;
    assert s[8..] == a[4..] == b;
    assert s[16..] == b[8..] == c;
    assert s[20..] == c[4..] == rest;
  }

  /** Decoding undoes encoding on every valid delta. */
  lemma DecodeEncode(d: Delta)
    requires ValidDelta(d)
    ensures Encoded(d).Ok? && Parsed(Encoded(d).value) == Ok(d)
  {
    FitsIsWritable(d);
    ParsePages(d.pages, d.pageSize, d.fileSize);
    hide ReadU32, ReadU64, ToLe, ParsedPages, EncodedPages;
    Header(d.pageSize, d.fileSize, |d.pages|, EncodedPages(d.pages));
  }

  /** Encoding undoes decoding on every accepted byte string, and only valid deltas are accepted. */
  lemma EncodeDecode(s: Bytes)
    requires Parsed(s).Ok?
    ensures ValidDelta(Parsed(s).value) && Encoded(Parsed(s).value) == Ok(s)
  {
    var n := ReadU32(s[16..]);
    WritePages(s[20..], n, ReadU32(s[4..]), ReadU64(s[8..]));
    WriteBack32(s[4..]);
    WriteBack64(s[8..]);
    WriteBack32(s[16..]);
    hide ReadU32, ReadU64, ToLe, ParsedPages, EncodedPages;
    assert s[4..][4..] == s[8..] && s[8..][8..] == s[16..] && s[16..][4..] == s[20..];
    assert s == MAGIC + s[4..];
  }

  lemma ShortTail(s: Bytes, n: nat, pageSize: u32, fileSize: u64)
    requires |s| / 8 < n
    ensures ParsedPages(s, n, pageSize, fileSize).Err?
  {
    if ParsedPages(s, n, pageSize, fileSize).Ok? {
      WritePages(s, n, pageSize, fileSize);
    }
  }

  function WithPages(pageSize: u32, fileSize: u64, pages: seq<Page>, rest: Result<seq<Page>>): Result<Delta> {
    if rest.Err? then Err else Ok(Delta(pageSize, fileSize, pages + rest.value))
  }

  lemma WithPage(pageSize: u32, fileSize: u64, pages: seq<Page>, p: Page, rest: Result<seq<Page>>)
    requires rest.Ok?
    ensures WithPages(pageSize, fileSize, pages, Ok([p] + rest.value)) ==
      WithPages(pageSize, fileSize, pages + [p], rest)
  {
    assert pages + ([p] + rest.value) == pages + [p] + rest.value;
  }

  method ReadBytes(bytes: Bytes, offset: nat, length: nat) returns (r: Result<Bytes>, next: nat)
    requires offset <= |bytes|
    ensures if offset + length <= |bytes| then r == Ok(bytes[offset..offset + length]) && next == offset + length
            else r == Err && next == offset
  {
    if offset + length > |bytes| {
      return Err, offset;
    }
    return Ok(bytes[offset..offset + length]), offset + length;
  }

  /** Accepts exactly the encodings of valid deltas. */
  method DecodeSqliteDelta(bytes: Bytes) returns (r: Result<Delta>)
    ensures r == Parsed(bytes)
    ensures r.Ok? ==> ValidDelta(r.value) && Encoded(r.value) == Ok(bytes)
    ensures r.Err? ==> forall d | ValidDelta(d) :: Encoded(d) != Ok(bytes)
  {
    r := ParseDelta(bytes);
    if r.Ok? { EncodeDecode(bytes); }
    forall d | ValidDelta(d) ensures r.Err? ==> Encoded(d) != Ok(bytes) { DecodeEncode(d); }
  }

  method ParseDelta(bytes: Bytes) returns (r: Result<Delta>)
    ensures r == Parsed(bytes)
  {
    var magic, offset := ReadBytes(bytes, 0, |MAGIC|);
    if magic.Err? || magic.value != MAGIC {
      return Err;
    }
    var ok, pageSize, fileSize, pageCount := ReadHeader(bytes);
    if !ok || pageSize == 0 {
      return Err;
    }
    if pageCount > (|bytes| - 20) / 8 {
      ShortTail(bytes[20..], pageCount, pageSize, fileSize);
      return Err;
    }
    hide ReadU32, ReadU64, ParsedPages;
    r := ReadPages(bytes, 20, pageCount, pageSize, fileSize);
    ghost var pages := ParsedPages(bytes[20..], pageCount, pageSize, fileSize);
    assert pages.Ok? ==> [] + pages.value == pages.value;
  }

  /** The integers after the magic. */
  method ReadHeader(bytes: Bytes) returns (ok: bool, pageSize: u32, fileSize: u64, pageCount: u32)
    requires |bytes| >= 4
    ensures ok <==> |bytes| >= 20
    ensures ok ==>
              pageSize == ReadU32(bytes[4..]) && fileSize == ReadU64(bytes[8..]) && pageCount == ReadU32(bytes[16..])
  {
    ok, pageSize, fileSize, pageCount := false, 0, 0, 0;
    var raw, offset := ReadBytes(bytes, 4, 4);
    if raw.Err? { return; }
    pageSize := ReadU32(raw.value);
    assert bytes[4..][..4] == raw.value[..4];
    raw, offset := ReadBytes(bytes, offset, 8);
    if raw.Err? { return; }
    fileSize := ReadU64(raw.value);
    assert bytes[8..][..8] == raw.value[..8];
    raw, offset := ReadBytes(bytes, offset, 4);
    if raw.Err? { return; }
    pageCount := ReadU32(raw.value);
    assert bytes[16..][..4] == raw.value[..4];
    ok := true;
  }

  method ReadPages(bytes: Bytes, start: nat, pageCount: u32, pageSize: u32, fileSize: u64) returns (r: Result<Delta>)
    requires start <= |bytes| && pageSize > 0
    ensures r == WithPages(pageSize, fileSize, [], ParsedPages(bytes[start..], pageCount, pageSize, fileSize))
  {
    hide ReadU32, Fits;
    var offset: nat, pages := start, [];
    for i := 0 to pageCount
      invariant offset <= |bytes|
      invariant WithPages(pageSize, fileSize, [], ParsedPages(bytes[start..], pageCount, pageSize, fileSize)) ==
                WithPages(pageSize, fileSize, pages, ParsedPages(bytes[offset..], pageCount - i, pageSize, fileSize))
    {
      var page, next := ReadPage(bytes, offset, pageSize, fileSize);
      if page.Err? { return Err; }
      ghost var rest := ParsedPages(bytes[next..], pageCount - i - 1, pageSize, fileSize);
      assert bytes[offset..][8 + |page.value.bytes|..] == bytes[next..];
      if rest.Ok? { WithPage(pageSize, fileSize, pages, page.value, rest); }
      pages, offset := pages + [page.value], next;
    }
    if offset != |bytes| { return Err; }
    assert pages + [] == pages;
    return Ok(Delta(pageSize, fileSize, pages));
  }

  method ReadPage(bytes: Bytes, offset: nat, pageSize: u32, fileSize: u64) returns (page: Result<Page>, next: nat)
    requires offset <= |bytes| && pageSize > 0
    ensures var s := bytes[offset..];
            if |s| < 8 || |s| < 8 + ReadU32(s[4..])
              || !Fits(Page(ReadU32(s), s[8..8 + ReadU32(s[4..])]), pageSize, fileSize)
            then page == Err
            else page == Ok(Page(ReadU32(s), s[8..8 + ReadU32(s[4..])])) && next == offset + 8 + ReadU32(s[4..])
  {
    ghost var s := bytes[offset..];
    var raw;
    raw, next := ReadBytes(bytes, offset, 4);
    if raw.Err? { return Err, next; }
    var index := ReadU32(raw.value);
    assert s[..4] == raw.value[..4];
    raw, next := ReadBytes(bytes, next, 4);
    if raw.Err? { return Err, next; }
    var length := ReadU32(raw.value);
    assert s[4..][..4] == raw.value[..4];
    hide ReadU32;
    if length > pageSize { return Err, next; }
    OffsetsNeverOverflow(index, pageSize, length);
    if index * pageSize + length > fileSize { return Err, next; }
    raw, next := ReadBytes(bytes, next, length);
    if raw.Err? { return Err, next; }
    assert s[8..8 + length] == raw.value;
    page := Ok(Page(index, raw.value));
  }

  /** The checked addition of a page's offset and length cannot overflow 64 bits. */
  lemma OffsetsNeverOverflow(index: u32, pageSize: u32, length: u32)
    requires length <= pageSize
    ensures index * pageSize + length <= U64_MAX
  {
    assert index * pageSize <= U32_MAX * U32_MAX by {
      assert index * pageSize <= U32_MAX * pageSize <= U32_MAX * U32_MAX;
    }
  }
}
