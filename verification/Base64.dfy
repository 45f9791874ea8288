/** The key store's text form of a secret (section 4 of RFC 4648). A string is the sequence of its bytes. */
module Base64 {
  import opened Clocks
  import opened Values

  type Bytes = seq<byte>

  /** The alphabet, by position. */
  function Letter(v: nat): (c: char)
    requires v < 64
  {
    if v < 26 then 'A' + v as char
    else if v < 52 then 'a' + (v - 26) as char
    else if v < 62 then '0' + (v - 52) as char
    else if v == 62 then '+' else '/'
  }

  function Position(c: char): (r: Option<nat>)
    ensures r.Some? ==> r.value < 64
  {
    if 'A' <= c <= 'Z' then Some(c as int - 'A' as int)
    else if 'a' <= c <= 'z' then Some(c as int - 'a' as int + 26)
    else if '0' <= c <= '9' then Some(c as int - '0' as int + 52)
    else if c == '+' then Some(62)
    else if c == '/' then Some(63)
    else None
  }

  predicate IsSpace(c: char) {
    c as int in {0x09, 0x0A, 0x0C, 0x0D, 0x20}
  }

  // ----- Encoding

  function Triple(chunk: Bytes): nat
    requires 1 <= |chunk| <= 3
  {
    chunk[0] as int * 0x10000 + (if |chunk| > 1 then chunk[1] as int * 0x100 else 0)
      + (if |chunk| > 2 then chunk[2] as int else 0)
  }

  function Quad(chunk: Bytes): (q: string)
    requires 1 <= |chunk| <= 3
    ensures |q| == 4
  {
    var triple := Triple(chunk);
    [ Letter(triple / 0x40000 % 64),
      Letter(triple / 0x1000 % 64),
      if |chunk| > 1 then Letter(triple / 0x40 % 64) else '=',
      if |chunk| > 2 then Letter(triple % 64) else '=' ]
  }

  function Encoded(bytes: Bytes): string
    decreases |bytes|
  {
    if bytes == [] then "" else if |bytes| <= 3 then Quad(bytes) else Quad(bytes[..3]) + Encoded(bytes[3..])
  }

  method Encode(bytes: Bytes) returns (out: string)
    ensures out == Encoded(bytes)
    ensures |out| == (|bytes| + 2) / 3 * 4
  {
    out := "";
    var i := 0;
    assert bytes[0..] == bytes;
    hide Quad;
    while i < |bytes|
      invariant 0 <= i <= |bytes|
      invariant out + Encoded(bytes[i..]) == Encoded(bytes)
    {
      var end := if i + 3 <= |bytes| then i + 3 else |bytes|;
      ghost var rest := bytes[i..];
      assert |rest| > 3 ==> rest[..3] == bytes[i..end] && rest[3..] == bytes[end..];
      assert |rest| <= 3 ==> rest == bytes[i..end] && bytes[end..] == [];
      out := out + Quad(bytes[i..end]);
      i := end;
    }
    EncodedLength(bytes);
  }

  lemma {:induction false} EncodedLength(bytes: Bytes)
    ensures |Encoded(bytes)| == (|bytes| + 2) / 3 * 4
    decreases |bytes|
  {
    hide Quad;
    if |bytes| > 3 { EncodedLength(bytes[3..]); }
  }

  // ----- Decoding

  /** What one group has given so far: its value and how much padding was seen. */
  datatype Gathering = Gathering(triple: nat, padding: nat)

  function Take(c: char, g: Gathering): Option<Gathering> {
    if c == '=' then Some(Gathering(g.triple * 64, g.padding + 1))
    else if g.padding > 0 || Position(c).None? then None
    else Some(Gathering(g.triple * 64 + Position(c).value, g.padding))
  }

  function Gathered(group: string, g: Gathering): Option<Gathering> {
    if group == "" then Some(g)
    else
      var next := Take(group[0], g);
      if next.None? then None else Gathered(group[1..], next.value)
  }

  /** The bytes of a group; padding leaves off the last ones. */
  function Cut(g: Gathering): Bytes {
    var b0, b1, b2 := g.triple / 0x10000 % 256, g.triple / 0x100 % 256, g.triple % 256;
    if g.padding < 1 then [b0, b1, b2] else if g.padding < 2 then [b0, b1] else [b0]
  }

  function Ungrouped(group: string): Option<Bytes>
    requires |group| == 4
  {
    var gathered := Gathered(group, Gathering(0, 0));
    if gathered.None? then None else Some(Cut(gathered.value))
  }

  function DecodedGroups(text: string): Option<Bytes>
    requires |text| % 4 == 0
    decreases |text|
  {
    if text == "" then Some([])
    else
      var first, rest := Ungrouped(text[..4]), DecodedGroups(text[4..]);
      if first.None? || rest.None? then None else Some(first.value + rest.value)
  }

  function Stripped(text: string): string {
    if text == "" then "" else (if IsSpace(text[0]) then "" else [text[0]]) + Stripped(text[1..])
  }

  function Decoded(text: string): Option<Bytes> {
    var stripped := Stripped(text);
    if |stripped| % 4 != 0 then None else DecodedGroups(stripped)
  }

  method Strip(text: string) returns (bytes: string)
    ensures bytes == Stripped(text)
  {
    bytes := "";
    assert text[0..] == text;
    for i := 0 to |text|
      invariant bytes + Stripped(text[i..]) == Stripped(text)
    {
      assert text[i..][0] == text[i] && text[i..][1..] == text[i + 1..];
      if !IsSpace(text[i]) {
        bytes := bytes + [text[i]];
      }
    }
  }

  method Gather(group: string) returns (r: Option<Gathering>)
    requires |group| == 4
    ensures r == Gathered(group, Gathering(0, 0))
  {
    var triple, padding := 0, 0;
    assert group[0..] == group;
    for i := 0 to 4
      invariant Gathered(group, Gathering(0, 0)) == Gathered(group[i..], Gathering(triple, padding))
    {
      assert group[i..][0] == group[i] && group[i..][1..] == group[i + 1..];
      var value := 0;
      if group[i] == '=' {
        padding := padding + 1;
      } else {
        if padding > 0 { return None; }
        var position := Position(group[i]);
        if position.None? { return None; }
        value := position.value;
      }
      triple := triple * 64 + value;
    }
    return Some(Gathering(triple, padding));
  }

  method Decode(text: string) returns (r: Option<Bytes>)
    ensures r == Decoded(text)
  {
    var bytes := Strip(text);
    if |bytes| % 4 != 0 {
      return None;
    }
    var out, i := [], 0;
    assert bytes[0..] == bytes;
    PrependNothing(DecodedGroups(bytes));
    hide Ungrouped, DecodedGroups, Prepended;
    while i < |bytes|
      invariant 0 <= i <= |bytes| && i % 4 == 0
      invariant DecodedGroups(bytes) == Prepended(out, DecodedGroups(bytes[i..]))
    {
      RoomForFour(|bytes|, i);
      GroupAt(bytes, i, out);
      var group := DecodeGroup(bytes[i..i + 4]);
      if group.None? {
        return None;
      }
      out, i := out + group.value, i + 4;
    }
    NoGroupsLeft(bytes[i..], out);
    return Some(out);
  }

  lemma RoomForFour(n: nat, i: nat)
    requires n % 4 == 0 && i % 4 == 0 && i < n
    ensures i + 4 <= n && (i + 4) % 4 == 0
  {
  }

  lemma NoGroupsLeft(rest: string, out: Bytes)
    requires rest == ""
    ensures Prepended(out, DecodedGroups(rest)) == Some(out)
  {
    assert out + [] == out;
  }

  lemma GroupAt(bytes: string, i: nat, out: Bytes)
    requires |bytes| % 4 == 0 && i % 4 == 0 && i < |bytes|
    requires DecodedGroups(bytes) == Prepended(out, DecodedGroups(bytes[i..]))
    ensures var group := Ungrouped(bytes[i..i + 4]);
            DecodedGroups(bytes) ==
              if group.None? then None else Prepended(out + group.value, DecodedGroups(bytes[i + 4..]))
  {
    hide Ungrouped, DecodedGroups, Prepended;
    assert bytes[i..] == bytes[i..i + 4] + bytes[i + 4..];
    FirstGroup(bytes[i..], bytes[i..i + 4], bytes[i + 4..]);
    var group := Ungrouped(bytes[i..i + 4]);
    if group.Some? {
      PrependTwice(out, group.value, DecodedGroups(bytes[i + 4..]));
    } else {
      PrependNone(out);
    }
  }

  lemma FirstGroup(text: string, group: string, rest: string)
    requires text == group + rest && |group| == 4 && |rest| % 4 == 0
    ensures DecodedGroups(text) ==
              if Ungrouped(group).None? then None else Prepended(Ungrouped(group).value, DecodedGroups(rest))
  {
    hide Ungrouped;
    assert text[..4] == group && text[4..] == rest;
  }

  lemma PrependNone(out: Bytes)
    ensures Prepended(out, None) == None
  {
  }

  method DecodeGroup(group: string) returns (out: Option<Bytes>)
    requires |group| == 4
    ensures out == Ungrouped(group)
  {
    var g := Gather(group);
    if g.None? {
      return None;
    }
    var triple := g.value.triple;
    var bytes: Bytes := [triple / 0x10000 % 256];
    if g.value.padding < 2 {
      bytes := bytes + [triple / 0x100 % 256];
    }
    if g.value.padding < 1 {
      bytes := bytes + [triple % 256];
    }
    assert bytes == Cut(g.value);
    return Some(bytes);
  }

  function Prepended(bytes: Bytes, r: Option<Bytes>): Option<Bytes> {
    if r.None? then None else Some(bytes + r.value)
  }

  lemma PrependNothing(r: Option<Bytes>)
    ensures Prepended([], r) == r
  {
    if r.Some? { assert [] + r.value == r.value; }
  }

  lemma PrependTwice(a: Bytes, b: Bytes, r: Option<Bytes>)
    ensures Prepended(a, Prepended(b, r)) == Prepended(a + b, r)
  {
    if r.Some? { assert a + (b + r.value) == a + b + r.value; }
  }

  // ----- Round trip

  lemma LetterRoundTrip(v: nat)
    requires v < 64
    ensures Position(Letter(v)) == Some(v) && Letter(v) != '=' && !IsSpace(Letter(v))
  {
  }

  lemma Sextets(t: nat)
    requires t < 0x100_0000
    ensures ((t / 0x40000 % 64 * 64 + t / 0x1000 % 64) * 64 + t / 0x40 % 64) * 64 + t % 64 == t
  {
  }

  lemma GatherFour(a: char, b: char, c: char, d: char, g: Gathering, h: Gathering, i: Gathering, j: Gathering)
    requires Take(a, Gathering(0, 0)) == Some(g) && Take(b, g) == Some(h) && Take(c, h) == Some(i)
      && Take(d, i) == Some(j)
    ensures Gathered([a, b, c, d], Gathering(0, 0)) == Some(j)
  {
    hide Take;
    assert [a, b, c, d][1..] == [b, c, d] && [b, c, d][1..] == [c, d] && [c, d][1..] == [d] && [d][1..] == "";
    assert Gathered([d], i) == Some(j);
    assert Gathered([c, d], h) == Some(j);
    assert Gathered([b, c, d], g) == Some(j);
  }

  lemma TakeLetter(v: nat, triple: nat)
    requires v < 64
    ensures Take(Letter(v), Gathering(triple, 0)) == Some(Gathering(triple * 64 + v, 0))
  {
    LetterRoundTrip(v);
    hide Letter, Position;
  }

  lemma TakePadding(g: Gathering)
    ensures Take('=', g) == Some(Gathering(g.triple * 64, g.padding + 1))
  {
  }

  lemma GatherLetters(s0: nat, s1: nat, s2: nat, s3: nat, padding: nat)
    requires s0 < 64 && s1 < 64 && s2 < 64 && s3 < 64 && padding <= 2
    requires (padding > 0 ==> s3 == 0) && (padding > 1 ==> s2 == 0)
    ensures Gathered([Letter(s0), Letter(s1), if padding > 1 then '=' else Letter(s2),
                      if padding > 0 then '=' else Letter(s3)],
                     Gathering(0, 0)) == Some(Gathering(((s0 * 64 + s1) * 64 + s2) * 64 + s3, padding))
  {
    var g, h := Gathering(s0, 0), Gathering(s0 * 64 + s1, 0);
    var i := Gathering((s0 * 64 + s1) * 64 + s2, if padding > 1 then 1 else 0);
    var j := Gathering(((s0 * 64 + s1) * 64 + s2) * 64 + s3, padding);
    TakeLetter(s0, 0);
    TakeLetter(s1, g.triple);
    if padding > 1 { TakePadding(h); } else { TakeLetter(s2, h.triple); }
    if padding > 0 { TakePadding(i); } else { TakeLetter(s3, i.triple); }
    hide Letter, Take, Gathered;
    GatherFour(Letter(s0), Letter(s1), if padding > 1 then '=' else Letter(s2),
               if padding > 0 then '=' else Letter(s3), g, h, i, j);
  }

  /** Gathering a group gives back its value, and as much padding as bytes were missing. */
  lemma QuadGathered(chunk: Bytes)
    requires 1 <= |chunk| <= 3
    ensures Gathered(Quad(chunk), Gathering(0, 0)) == Some(Gathering(Triple(chunk), 3 - |chunk|))
  {
    var t := Triple(chunk);
    Sextets(t);
    if |chunk| < 3 { ShortTriple(chunk); }
    hide Letter, Triple, Gathered;
    GatherLetters(t / 0x40000 % 64, t / 0x1000 % 64, t / 0x40 % 64, t % 64, 3 - |chunk|);
  }

  /** A short chunk leaves the low sextets empty. */
  lemma ShortTriple(chunk: Bytes)
    requires 1 <= |chunk| < 3
    ensures Triple(chunk) % 64 == 0 && (|chunk| == 1 ==> Triple(chunk) / 0x40 % 64 == 0)
  {
    if |chunk| == 1 { assert Triple(chunk) == chunk[0] as int * 0x400 * 0x40; }
  }

  lemma QuadRoundTrip(chunk: Bytes)
    requires 1 <= |chunk| <= 3
    ensures Ungrouped(Quad(chunk)) == Some(chunk)
  {
    QuadGathered(chunk);
    hide Quad, Gathered;
    CutTriple(chunk);
  }

  lemma ThreeBytes(b0: byte, b1: byte, b2: byte)
    ensures var t := b0 as int * 0x10000 + b1 as int * 0x100 + b2 as int;
            t / 0x10000 % 256 == b0 as int && t / 0x100 % 256 == b1 as int && t % 256 == b2 as int
  {
    var t := b0 as int * 0x10000 + b1 as int * 0x100 + b2 as int;
    assert t / 0x100 == b0 as int * 0x100 + b1 as int;
    assert t / 0x10000 == b0 as int;
  }

  lemma CutTriple(chunk: Bytes)
    requires 1 <= |chunk| <= 3
    ensures Cut(Gathering(Triple(chunk), 3 - |chunk|)) == chunk
  {
    ThreeBytes(chunk[0], if |chunk| > 1 then chunk[1] else 0, if |chunk| > 2 then chunk[2] else 0);
  }

  lemma QuadHasNoSpace(chunk: Bytes)
    requires 1 <= |chunk| <= 3
    ensures forall i | 0 <= i < 4 :: !IsSpace(Quad(chunk)[i])
  {
    var t := Triple(chunk);
    LetterRoundTrip(t / 0x40000 % 64);
    LetterRoundTrip(t / 0x1000 % 64);
    LetterRoundTrip(t / 0x40 % 64);
    LetterRoundTrip(t % 64);
  }

  lemma {:induction false} NothingToStrip(text: string)
    requires forall i | 0 <= i < |text| :: !IsSpace(text[i])
    ensures Stripped(text) == text
  {
    if text != "" {
      NothingToStrip(text[1..]);
      assert [text[0]] + text[1..] == text;
    }
  }

  lemma EncodedCons(bytes: Bytes, chunk: Bytes, rest: Bytes)
    requires bytes != [] && chunk == (if |bytes| <= 3 then bytes else bytes[..3])
    requires rest == if |bytes| <= 3 then [] else bytes[3..]
    ensures Encoded(bytes) == Quad(chunk) + Encoded(rest)
  {
    hide Quad;
    assert Quad(chunk) + "" == Quad(chunk);
  }

  lemma JoinGroups(first: string, others: string, chunk: Bytes, rest: Bytes)
    requires |first| == 4 && |others| % 4 == 0 && Ungrouped(first) == Some(chunk) && DecodedGroups(others) == Some(rest)
    ensures |first + others| % 4 == 0 && DecodedGroups(first + others) == Some(chunk + rest)
  {
    hide Ungrouped;
    var e := first + others;
    assert e[..4] == first && e[4..] == others;
  }

  lemma {:induction false} GroupsRoundTrip(bytes: Bytes)
    ensures |Encoded(bytes)| % 4 == 0 && DecodedGroups(Encoded(bytes)) == Some(bytes)
    ensures forall i | 0 <= i < |Encoded(bytes)| :: !IsSpace(Encoded(bytes)[i])
    decreases |bytes|
  {
    EncodedLength(bytes);
    if bytes != [] {
      var chunk, rest := if |bytes| <= 3 then bytes else bytes[..3], if |bytes| <= 3 then [] else bytes[3..];
      GroupsRoundTrip(rest);
      QuadRoundTrip(chunk);
      QuadHasNoSpace(chunk);
      hide Quad, Ungrouped, IsSpace;
      EncodedCons(bytes, chunk, rest);
      assert chunk + rest == bytes;
      JoinGroups(Quad(chunk), Encoded(rest), chunk, rest);
    }
  }

  /** Every byte string decodes back from its encoding. */
  lemma RoundTrip(bytes: Bytes)
    ensures Decoded(Encoded(bytes)) == Some(bytes)
  {
    GroupsRoundTrip(bytes);
    NothingToStrip(Encoded(bytes));
  }

  lemma {:induction false} StrippedSplit(a: string, b: string)
    ensures Stripped(a + b) == Stripped(a) + Stripped(b)
  {
    if a == "" {
      assert a + b == b;
    } else {
      assert (a + b)[0] == a[0] && (a + b)[1..] == a[1..] + b;
      StrippedSplit(a[1..], b);
    }
  }

  lemma {:induction false} AllStripped(space: string)
    requires forall i | 0 <= i < |space| :: IsSpace(space[i])
    ensures Stripped(space) == ""
  {
    if space != "" { AllStripped(space[1..]); }
  }

  /** Inserting ASCII whitespace anywhere never changes what a text decodes to, accepted or not. */
  lemma WhitespaceIgnored(before: string, space: string, after: string)
    requires forall i | 0 <= i < |space| :: IsSpace(space[i])
    ensures Decoded(before + space + after) == Decoded(before + after)
  {
    AllStripped(space);
    StrippedSplit(before + space, after);
    StrippedSplit(before, space);
    StrippedSplit(before, after);
    assert Stripped(before) + "" == Stripped(before);
  }

  // ----- Strictness

  predicate IsLetter(c: char) {
    Position(c).Some?
  }

  /** A last group: at most two characters of padding, at the end, and the bits it leaves unused are zero. */
  predicate StrictLast(g: string)
    requires |g| == 4
  {
    && IsLetter(g[0]) && IsLetter(g[1]) && (IsLetter(g[2]) || g[2] == '=') && (IsLetter(g[3]) || g[3] == '=')
    && (g[2] == '=' ==> g[3] == '=' && Position(g[1]).value % 16 == 0)
    && (IsLetter(g[2]) && g[3] == '=' ==> Position(g[2]).value % 4 == 0)
  }

  predicate AllLetters(g: string) {
    forall i | 0 <= i < |g| :: IsLetter(g[i])
  }

  /** Letters only, but for the padding of the last group. */
  predicate Strict(text: string)
    requires |text| % 4 == 0
    decreases |text|
  {
    text == "" || if |text| == 4 then StrictLast(text) else AllLetters(text[..4]) && Strict(text[4..])
  }

  lemma PositionLetter(c: char)
    requires IsLetter(c)
    ensures Letter(Position(c).value) == c && c != '='
  {
  }

  /** What a group of four can be, and what it gives. */
  lemma GroupShape(g: string)
    requires |g| == 4 && Ungrouped(g).Some?
    ensures IsLetter(g[0]) || g[0] == '='
    ensures IsLetter(g[1]) || g[1] == '='
    ensures IsLetter(g[2]) || g[2] == '='
    ensures IsLetter(g[3]) || g[3] == '='
    ensures forall i, j | 0 <= i < j < 4 && g[i] == '=' :: g[j] == '='
  {
    var a, b, c, d := g[0], g[1], g[2], g[3];
    assert g == [a, b, c, d];
    GatherAny(a, [b, c, d], Gathering(0, 0));
    GatherAny(b, [c, d], Take(a, Gathering(0, 0)).value);
    GatherAny(c, [d], Take(b, Take(a, Gathering(0, 0)).value).value);
    GatherAny(d, "", Take(c, Take(b, Take(a, Gathering(0, 0)).value).value).value);
  }

  lemma GatherAny(c: char, rest: string, g: Gathering)
    ensures Gathered([c] + rest, g).Some? ==>
      Take(c, g).Some? && Gathered([c] + rest, g) == Gathered(rest, Take(c, g).value)
  {
    assert ([c] + rest)[1..] == rest;
  }

  lemma SextetsOf(s0: nat, s1: nat, s2: nat, s3: nat)
    requires s0 < 64 && s1 < 64 && s2 < 64 && s3 < 64
    ensures var t := ((s0 * 64 + s1) * 64 + s2) * 64 + s3;
            t < 0x100_0000 && t / 0x40000 % 64 == s0 && t / 0x1000 % 64 == s1 && t / 0x40 % 64 == s2 && t % 64 == s3
  {
    var t := ((s0 * 64 + s1) * 64 + s2) * 64 + s3;
    assert t / 0x40 == (s0 * 64 + s1) * 64 + s2;
    assert t / 0x1000 == s0 * 64 + s1;
    assert t / 0x40000 == s0;
  }

  /** What is left of a value when only its first bytes are kept. */
  lemma BytesOf(t: nat)
    requires t < 0x100_0000
    ensures t / 0x10000 % 256 * 0x10000 + t / 0x100 % 256 * 0x100 + t % 256 == t
    ensures t / 0x10000 % 256 * 0x10000 + t / 0x100 % 256 * 0x100 == t - t % 0x100
    ensures t / 0x10000 % 256 * 0x10000 == t - t % 0x10000
  {
  }

  /** The letters of the value that bytes cut from four sextets have. */
  lemma SextetsAgain(s0: nat, s1: nat, s2: nat, s3: nat)
    requires s0 < 64 && s1 < 64 && s2 < 64 && s3 < 64
    ensures var t := ((s0 * 64 + s1) * 64 + s2) * 64 + s3;
            var u := t / 0x10000 % 256 * 0x10000 + t / 0x100 % 256 * 0x100 + t % 256;
            u / 0x40000 % 64 == s0 && u / 0x1000 % 64 == s1 && u / 0x40 % 64 == s2 && u % 64 == s3
  {
    SextetsOf(s0, s1, s2, s3);
    BytesOf(((s0 * 64 + s1) * 64 + s2) * 64 + s3);
  }

  lemma LowTwoBits(v: nat, s2: nat)
    requires s2 < 64
    ensures (v * 64 + s2) * 64 - (v * 64 + s2) * 64 % 0x100 == (v * 64 + (s2 - s2 % 4)) * 64
  {
    var w := v * 64 + s2;
    assert w % 4 == s2 % 4;
    QuarterBytes(w);
  }

  lemma QuarterBytes(w: nat)
    ensures w * 64 - w * 64 % 0x100 == (w - w % 4) * 64
  {
    assert w * 64 == w / 4 * 0x100 + w % 4 * 64;
  }

  lemma SextetsOfTwo(s0: nat, s1: nat, s2: nat)
    requires s0 < 64 && s1 < 64 && s2 < 64
    ensures var t := ((s0 * 64 + s1) * 64 + s2) * 64;
            var u := t / 0x10000 % 256 * 0x10000 + t / 0x100 % 256 * 0x100;
            u / 0x40000 % 64 == s0 && u / 0x1000 % 64 == s1 && u / 0x40 % 64 == s2 - s2 % 4
  {
    SextetsOf(s0, s1, s2, 0);
    SextetsOf(s0, s1, s2 - s2 % 4, 0);
    BytesOf(((s0 * 64 + s1) * 64 + s2) * 64);
    LowTwoBits(s0 * 64 + s1, s2);
  }

  lemma LowBits(v: nat, s1: nat)
    requires v % 64 == s1 && s1 < 64
    ensures v * 64 * 64 - v * 64 * 64 % 0x10000 == (v - s1 % 16) * 64 * 64
  {
    var q := v / 16;
    assert v == q * 16 + s1 % 16;
    assert v * 64 * 64 == q * 0x10000 + s1 % 16 * 0x1000;
  }

  lemma SextetsOfOne(s0: nat, s1: nat)
    requires s0 < 64 && s1 < 64
    ensures var t := (s0 * 64 + s1) * 64 * 64;
            var u := t / 0x10000 % 256 * 0x10000;
            u / 0x40000 % 64 == s0 && u / 0x1000 % 64 == s1 - s1 % 16
  {
    var t := (s0 * 64 + s1) * 64 * 64;
    SextetsOf(s0, s1, 0, 0);
    SextetsOf(s0, s1 - s1 % 16, 0, 0);
    BytesOf(t);
    LowBits(s0 * 64 + s1, s1);
  }

  lemma SameLetter(v: nat, c: char)
    requires v < 64 && IsLetter(c)
    ensures Letter(v) == c <==> v == Position(c).value
  {
    LetterRoundTrip(v);
    PositionLetter(c);
  }

  lemma QuadOf(chunk: Bytes, a: char, b: char, c: char, d: char)
    requires 1 <= |chunk| <= 3
    ensures Quad(chunk) == [a, b, c, d] <==>
            && Letter(Triple(chunk) / 0x40000 % 64) == a && Letter(Triple(chunk) / 0x1000 % 64) == b
            && (if |chunk| > 1 then Letter(Triple(chunk) / 0x40 % 64) else '=') == c
            && (if |chunk| > 2 then Letter(Triple(chunk) % 64) else '=') == d
  {
    hide Triple, Letter;
  }

  /** Three letters and one padding, or two and two. */
  lemma GatheredAs(g: string, padding: nat)
    requires |g| == 4 && padding <= 2
    requires IsLetter(g[0]) && IsLetter(g[1])
    requires (if padding > 1 then g[2] == '=' else IsLetter(g[2]))
      && (if padding > 0 then g[3] == '=' else IsLetter(g[3]))
    ensures var s0, s1 := Position(g[0]).value, Position(g[1]).value;
            var s2 := if padding > 1 then 0 else Position(g[2]).value;
            var s3 := if padding > 0 then 0 else Position(g[3]).value;
            Gathered(g, Gathering(0, 0)) == Some(Gathering(((s0 * 64 + s1) * 64 + s2) * 64 + s3, padding))
  {
    var s0, s1 := Position(g[0]).value, Position(g[1]).value;
    var s2, s3 := if padding > 1 then 0 else Position(g[2]).value, if padding > 0 then 0 else Position(g[3]).value;
    PositionLetter(g[0]);
    PositionLetter(g[1]);
    if padding <= 1 { PositionLetter(g[2]); }
    if padding == 0 { PositionLetter(g[3]); }
    GatherLetters(s0, s1, s2, s3, padding);
    hide Letter, Gathered, Position, IsLetter;
    assert g == [Letter(s0), Letter(s1), if padding > 1 then '=' else Letter(s2),
                 if padding > 0 then '=' else Letter(s3)];
  }

  lemma ThreeLetters(g: string)
    requires |g| == 4 && AllLetters(g)
    ensures Ungrouped(g).Some? && |Ungrouped(g).value| == 3 && Quad(Ungrouped(g).value) == g
  {
    GatheredAs(g, 0);
    SextetsAgain(Position(g[0]).value, Position(g[1]).value, Position(g[2]).value, Position(g[3]).value);
    var chunk := Ungrouped(g).value;
    QuadOf(chunk, g[0], g[1], g[2], g[3]);
    PositionLetter(g[0]);
    PositionLetter(g[1]);
    PositionLetter(g[2]);
    PositionLetter(g[3]);
    hide Letter, Gathered, Position, Quad;
    assert g == [g[0], g[1], g[2], g[3]];
  }

  lemma CutTwo(s0: nat, s1: nat, s2: nat)
    requires s0 < 64 && s1 < 64 && s2 < 64
    ensures var chunk := Cut(Gathering(((s0 * 64 + s1) * 64 + s2) * 64, 1));
            && |chunk| == 2 && Triple(chunk) / 0x40000 % 64 == s0 && Triple(chunk) / 0x1000 % 64 == s1
            && Triple(chunk) / 0x40 % 64 == s2 - s2 % 4
  {
    SextetsOfTwo(s0, s1, s2);
  }

  lemma CutOne(s0: nat, s1: nat)
    requires s0 < 64 && s1 < 64
    ensures var chunk := Cut(Gathering((s0 * 64 + s1) * 64 * 64, 2));
            |chunk| == 1 && Triple(chunk) / 0x40000 % 64 == s0 && Triple(chunk) / 0x1000 % 64 == s1 - s1 % 16
  {
    SextetsOfOne(s0, s1);
  }

  lemma TwoBytes(g: string)
    requires |g| == 4 && IsLetter(g[0]) && IsLetter(g[1]) && IsLetter(g[2]) && g[3] == '='
    ensures Ungrouped(g).Some? && |Ungrouped(g).value| == 2
    ensures Quad(Ungrouped(g).value) == g <==> Position(g[2]).value % 4 == 0
  {
    GatheredAs(g, 1);
    hide Letter, Gathered, Quad, Cut, Triple, Position;
    var s0, s1, s2 := Position(g[0]).value, Position(g[1]).value, Position(g[2]).value;
    CutTwo(s0, s1, s2);
    TwoLetters(g, Ungrouped(g).value, s0, s1, s2);
  }

  lemma TwoLetters(g: string, chunk: Bytes, s0: nat, s1: nat, s2: nat)
    requires |g| == 4 && IsLetter(g[0]) && IsLetter(g[1]) && IsLetter(g[2]) && g[3] == '='
    requires Position(g[0]) == Some(s0) && Position(g[1]) == Some(s1) && Position(g[2]) == Some(s2)
    requires |chunk| == 2 && Triple(chunk) / 0x40000 % 64 == s0 && Triple(chunk) / 0x1000 % 64 == s1
    requires Triple(chunk) / 0x40 % 64 == s2 - s2 % 4
    ensures Quad(chunk) == g <==> s2 % 4 == 0
  {
    hide Letter, Quad, Triple, Position;
    QuadOf(chunk, g[0], g[1], g[2], g[3]);
    SameLetter(s0, g[0]);
    SameLetter(s1, g[1]);
    SameLetter(s2 - s2 % 4, g[2]);
    assert g == [g[0], g[1], g[2], g[3]];
  }

  lemma OneByte(g: string)
    requires |g| == 4 && IsLetter(g[0]) && IsLetter(g[1]) && g[2] == '=' && g[3] == '='
    ensures Ungrouped(g).Some? && |Ungrouped(g).value| == 1
    ensures Quad(Ungrouped(g).value) == g <==> Position(g[1]).value % 16 == 0
  {
    GatheredAs(g, 2);
    hide Letter, Gathered, Quad, Cut, Triple, Position;
    var s0, s1 := Position(g[0]).value, Position(g[1]).value;
    CutOne(s0, s1);
    OneLetter(g, Ungrouped(g).value, s0, s1);
  }

  lemma OneLetter(g: string, chunk: Bytes, s0: nat, s1: nat)
    requires |g| == 4 && IsLetter(g[0]) && IsLetter(g[1]) && g[2] == '=' && g[3] == '='
    requires Position(g[0]) == Some(s0) && Position(g[1]) == Some(s1)
    requires |chunk| == 1 && Triple(chunk) / 0x40000 % 64 == s0 && Triple(chunk) / 0x1000 % 64 == s1 - s1 % 16
    ensures Quad(chunk) == g <==> s1 % 16 == 0
  {
    hide Letter, Quad, Triple, Position;
    QuadOf(chunk, g[0], g[1], g[2], g[3]);
    SameLetter(s0, g[0]);
    SameLetter(s1 - s1 % 16, g[1]);
    assert g == [g[0], g[1], g[2], g[3]];
  }

  lemma QuadStart(chunk: Bytes)
    requires 1 <= |chunk| <= 3
    ensures Quad(chunk)[0] != '=' && Quad(chunk)[1] != '=' && (|chunk| == 3 ==> Quad(chunk)[3] != '=')
  {
    LetterRoundTrip(Triple(chunk) / 0x40000 % 64);
    LetterRoundTrip(Triple(chunk) / 0x1000 % 64);
    LetterRoundTrip(Triple(chunk) % 64);
    hide Letter, Triple;
  }

  /** One group is what encoding its bytes gives exactly if it is strict. */
  lemma GroupStrictIff(g: string)
    requires |g| == 4
    ensures StrictLast(g) <==> Ungrouped(g).Some? && Quad(Ungrouped(g).value) == g
    ensures Ungrouped(g).Some? ==> 1 <= |Ungrouped(g).value| <= 3
  {
    hide Quad, Gathered, Position;
    if Ungrouped(g).Some? {
      GroupShape(g);
      QuadStart(Ungrouped(g).value);
    }
    hide Ungrouped;
    PaddingIsNoLetter();
    if IsLetter(g[0]) && IsLetter(g[1]) && IsLetter(g[2]) && IsLetter(g[3]) {
      assert AllLetters(g);
      ThreeLetters(g);
    } else if IsLetter(g[0]) && IsLetter(g[1]) && IsLetter(g[2]) && g[3] == '=' {
      TwoBytes(g);
    } else if IsLetter(g[0]) && IsLetter(g[1]) && g[2] == '=' && g[3] == '=' {
      OneByte(g);
    }
  }

  lemma PaddingIsNoLetter()
    ensures !IsLetter('=')
  {
  }

  lemma {:induction false} SomeBytes(text: string)
    requires |text| % 4 == 0 && text != "" && DecodedGroups(text).Some?
    ensures DecodedGroups(text).value != []
    decreases |text|
  {
    GroupStrictIff(text[..4]);
    hide Ungrouped, Quad;
  }

  /** Of the texts without whitespace, exactly the strict ones are the encoding of what they decode to. */
  lemma {:induction false} StrictIff(text: string)
    requires |text| % 4 == 0
    ensures Strict(text) <==> DecodedGroups(text).Some? && Encoded(DecodedGroups(text).value) == text
    decreases |text|
  {
    hide Ungrouped, Quad, StrictLast, AllLetters;
    if text != "" {
      var g, rest := text[..4], text[4..];
      assert text == g + rest;
      GroupStrictIff(g);
      if rest == "" {
        assert text == g;
        LastGroup(g);
      } else if AllLetters(g) {
        ThreeLetters(g);
        StrictIff(rest);
        if DecodedGroups(rest).Some? {
          SomeBytes(rest);
          FullGroup(g, rest);
        }
      } else {
        NotAllLetters(g, rest);
      }
    }
  }

  lemma LastGroup(g: string)
    requires |g| == 4
    ensures DecodedGroups(g) == Ungrouped(g)
    ensures Ungrouped(g).Some? && 1 <= |Ungrouped(g).value| <= 3 ==>
      Encoded(Ungrouped(g).value) == Quad(Ungrouped(g).value)
  {
    hide Ungrouped, Quad;
    assert g[..4] == g && g[4..] == "";
    if Ungrouped(g).Some? {
      assert DecodedGroups("") == Some([]);
      assert Ungrouped(g).value + [] == Ungrouped(g).value;
    }
  }

  lemma FullGroup(g: string, rest: string)
    requires |g| == 4 && |rest| % 4 == 0 && Ungrouped(g).Some? && |Ungrouped(g).value| == 3
      && Quad(Ungrouped(g).value) == g
    requires DecodedGroups(rest).Some? && DecodedGroups(rest).value != []
    ensures |g + rest| % 4 == 0
    ensures DecodedGroups(g + rest).Some?
    ensures Encoded(DecodedGroups(g + rest).value) == g + Encoded(DecodedGroups(rest).value)
  {
    hide Quad, Ungrouped, Encoded, DecodedGroups;
    var first, more := Ungrouped(g).value, DecodedGroups(rest).value;
    JoinGroups(g, rest, first, more);
    ThreeAndMore(first, more);
  }

  lemma ThreeAndMore(first: Bytes, more: Bytes)
    requires |first| == 3 && more != []
    ensures Encoded(first + more) == Quad(first) + Encoded(more)
  {
    hide Quad, Encoded;
    assert (first + more)[..3] == first && (first + more)[3..] == more;
    EncodedCons(first + more, first, more);
  }

  /** A padded group in front of others is never what encoding gives. */
  lemma NotAllLetters(g: string, rest: string)
    requires |g| == 4 && rest != "" && |rest| % 4 == 0 && !AllLetters(g)
    ensures DecodedGroups(g + rest).Some? ==> Encoded(DecodedGroups(g + rest).value) != g + rest
  {
    hide Quad;
    var text := g + rest;
    assert text[..4] == g && text[4..] == rest;
    if DecodedGroups(text).Some? {
      GroupShape(g);
      hide Ungrouped, Position;
      assert g[3] == '=';
      var bytes := DecodedGroups(text).value;
      EncodedLength(bytes);
      if |bytes| > 3 {
        QuadStart(bytes[..3]);
        assert Encoded(bytes)[3] == Quad(bytes[..3])[3];
        assert text[3] == g[3];
      }
    }
  }

  /** Decoding is lenient, and this is how far: what is decoded encodes back to the text, whitespace aside, if and
      only if the text is strict. */
  lemma StrictDecoding(text: string)
    ensures Decoded(text).Some? ==>
              && |Stripped(text)| % 4 == 0
              && (Encoded(Decoded(text).value) == Stripped(text) <==> Strict(Stripped(text)))
    ensures |Stripped(text)| % 4 == 0 && Strict(Stripped(text)) ==> Decoded(text).Some?
  {
    if |Stripped(text)| % 4 == 0 {
      StrictIff(Stripped(text));
    }
  }

  /** Two texts that no encoding produces: padding alone is taken for a zero byte, */
  lemma PaddingAlone()
    ensures Decoded("====") == Some([0]) && !Strict("====")
  {
    GatherFour('=', '=', '=', '=', Gathering(0, 1), Gathering(0, 2), Gathering(0, 3), Gathering(0, 4));
    OneGroup("====", 0);
    NothingToStrip("====");
    PaddingIsNoLetter();
    hide DecodedGroups, Ungrouped;
    assert Cut(Gathering(0, 4)) == [0];
  }

  /** and a padded group may stand in front of any others, which cuts it short in the middle of the text. */
  lemma PaddingInside(g: string, first: Bytes, rest: string, more: Bytes)
    requires |g| == 4 && g[3] == '=' && Ungrouped(g) == Some(first)
    requires rest != "" && |rest| % 4 == 0 && DecodedGroups(rest) == Some(more)
    requires forall i | 0 <= i < |g + rest| :: !IsSpace((g + rest)[i])
    ensures |g + rest| % 4 == 0 && Decoded(g + rest) == Some(first + more) && !Strict(g + rest)
  {
    JoinGroups(g, rest, first, more);
    NothingToStrip(g + rest);
    NotStrictInside(g, rest);
    hide Ungrouped, Strict, DecodedGroups, Stripped;
  }

  lemma ZeroGroup(g: string, zero: Bytes)
    requires g == ['A', 'A', '=', '='] && zero == [0]
    ensures Ungrouped(g) == Some(zero)
  {
    assert Letter(0) == 'A' && Cut(Gathering(0, 2)) == zero;
    TakeLetter(0, 0);
    TakePadding(Gathering(0, 0));
    TakePadding(Gathering(0, 1));
    hide Gathered, Take, Letter, Position, Cut;
    GatherFour('A', 'A', '=', '=', Gathering(0, 0), Gathering(0, 0), Gathering(0, 1), Gathering(0, 2));
  }

  lemma NoSpaceInZeros(g: string)
    requires g == ['A', 'A', '=', '=']
    ensures forall i | 0 <= i < |g + g| :: !IsSpace((g + g)[i])
  {
  }

  /** For one: two groups that stand for a zero byte each. */
  lemma PaddedZeros(g: string, zero: Bytes)
    requires g == ['A', 'A', '=', '='] && zero == [0]
    ensures Decoded(g + g) == Some(zero + zero)
  {
    ZeroGroup(g, zero);
    NoSpaceInZeros(g);
    hide Ungrouped, Decoded, Strict, DecodedGroups, IsSpace;
    OneGroup(g, 0);
    PaddingInside(g, zero, g, zero);
  }

  lemma NotStrictInside(g: string, rest: string)
    requires |g| == 4 && g[3] == '=' && rest != "" && |rest| % 4 == 0
    ensures !Strict(g + rest)
  {
    PaddingIsNoLetter();
    assert (g + rest)[..4] == g;
  }

  lemma OneGroup(g: string, b: byte)
    requires |g| == 4 && Ungrouped(g) == Some([b])
    ensures DecodedGroups(g) == Some([b])
  {
    hide Ungrouped;
    var first: Bytes, nothing: Bytes := [b], [];
    assert DecodedGroups("") == Some(nothing);
    JoinGroups(g, "", first, nothing);
    assert g + "" == g && first + nothing == first;
  }
}
