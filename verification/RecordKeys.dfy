/** Keys of record entries: `record:namespace:schema:entity:id`, each component percent-escaped byte by byte.
    A string is the sequence of its UTF-8 bytes, one per character. */
module RecordKeys {
  import opened Clocks

  datatype Result<+T> = Ok(value: T) | Err

  datatype KeyParts = KeyParts(ns: Text, schema: Text, entity: Text, id: Text)

  const PREFIX := "record"

  predicate Between(c: char, low: int, high: int) {
    low <= c as int <= high
  }

  /** How many bytes the first well-formed character takes (section 4 of RFC 3629), or zero if there is none. */
  function FirstChar(s: string): (n: nat)
    ensures n <= |s|
  {
    if s == [] then 0
    else if Between(s[0], 0x00, 0x7F) then 1
    else if |s| >= 2 && Between(s[0], 0xC2, 0xDF) && Tail(s[1]) then 2
    else if |s| >= 3 && Second3(s[0], s[1]) && Tail(s[2]) then 3
    else if |s| >= 4 && Second4(s[0], s[1]) && Tail(s[2]) && Tail(s[3]) then 4
    else 0
  }

  /** Well-formed UTF-8: what every string of the program is. */
  predicate ValidUtf8(s: string) {
    s == [] || (FirstChar(s) > 0 && ValidUtf8(s[FirstChar(s)..]))
  }

  predicate Tail(c: char) {
    Between(c, 0x80, 0xBF)
  }

  predicate Second3(a: char, b: char) {
    || (a as int == 0xE0 && Between(b, 0xA0, 0xBF))
    || (a as int == 0xED && Between(b, 0x80, 0x9F))
    || ((Between(a, 0xE1, 0xEC) || Between(a, 0xEE, 0xEF)) && Tail(b))
  }

  predicate Second4(a: char, b: char) {
    || (a as int == 0xF0 && Between(b, 0x90, 0xBF))
    || (Between(a, 0xF1, 0xF3) && Tail(b))
    || (a as int == 0xF4 && Between(b, 0x80, 0x8F))
  }

  predicate IsBytes(s: string) {
    forall i | 0 <= i < |s| :: s[i] as int < 256
  }

  /** A string of the program. */
  type Text = s: string | ValidUtf8(s) witness ""

  lemma {:induction false} Utf8IsBytes(s: string)
    requires ValidUtf8(s)
    ensures IsBytes(s)
  {
    if s != [] {
      var n := FirstChar(s);
      Utf8IsBytes(s[n..]);
      assert forall i | n <= i < |s| :: s[i] == s[n..][i - n];
    }
  }

  // ----- Escaping

  /** Section 2.3 of RFC 3986. */
  predicate Unreserved(c: char) {
    'A' <= c <= 'Z' || 'a' <= c <= 'z' || '0' <= c <= '9' || c in "-_.~"
  }

  function Hex(n: nat): char
    requires n < 16
  {
    if n < 10 then '0' + n as char else 'A' + (n - 10) as char
  }

  function EscapedByte(c: char): string
    requires c as int < 256
  {
    if Unreserved(c) then [c] else ['%', Hex(c as int / 16), Hex(c as int % 16)]
  }

  function Escaped(s: string): string
    requires IsBytes(s)
  {
    if s == [] then "" else EscapedByte(s[0]) + Escaped(s[1..])
  }

  method EscapeComponent(input: string) returns (out: string)
    requires IsBytes(input)
    ensures out == Escaped(input)
  {
    out := "";
    assert input[0..] == input;
    hide EscapedByte;
    for i := 0 to |input|
      invariant out + Escaped(input[i..]) == Escaped(input)
    {
      assert input[i..][0] == input[i] && input[i..][1..] == input[i + 1..];
      out := out + EscapedByte(input[i]);
    }
  }

  function DigitValue(c: char): Option<nat> {
    if '0' <= c <= '9' then Some(c as int - '0' as int)
    else if 'a' <= c <= 'f' then Some(c as int - 'a' as int + 10)
    else if 'A' <= c <= 'F' then Some(c as int - 'A' as int + 10)
    else None
  }

  /** `u8::from_str_radix` on two characters: either case, and a leading plus sign is allowed. */
  function HexPair(hi: char, lo: char): (r: Option<nat>)
    ensures r.Some? ==> r.value < 256
  {
    if DigitValue(lo).None? then None
    else if hi == '+' then DigitValue(lo)
    else if DigitValue(hi).None? then None
    else Some(16 * DigitValue(hi).value + DigitValue(lo).value)
  }

  function Unescaped(s: string): Result<string> {
    if s == [] then Ok("")
    else if s[0] != '%' then
      var rest := Unescaped(s[1..]);
      if rest.Ok? then Ok([s[0]] + rest.value) else Err
    else if |s| < 3 || HexPair(s[1], s[2]).None? then Err
    else
      var rest := Unescaped(s[3..]);
      if rest.Ok? then Ok([HexPair(s[1], s[2]).value as char] + rest.value) else Err
  }

  function Component(s: string): Result<Text> {
    var bytes := Unescaped(s);
    if bytes.Ok? && ValidUtf8(bytes.value) then Ok(bytes.value) else Err
  }

  function Prepended(bytes: string, r: Result<string>): Result<string> {
    if r.Ok? then Ok(bytes + r.value) else Err
  }

  lemma PrependedTwice(bytes: string, c: char, r: Result<string>)
    ensures Prepended(bytes, Prepended([c], r)) == Prepended(bytes + [c], r)
  {
    if r.Ok? { assert bytes + ([c] + r.value) == (bytes + [c]) + r.value; }
  }

  method UnescapeComponent(input: string) returns (r: Result<Text>)
    ensures r == Component(input)
  {
    var bytes, i := "", 0;
    assert input[0..] == input;
    assert Unescaped(input).Ok? ==> "" + Unescaped(input).value == Unescaped(input).value;
    while i < |input|
      invariant i <= |input|
      invariant Unescaped(input) == Prepended(bytes, Unescaped(input[i..]))
    {
      ghost var rest := input[i..];
      if input[i] == '%' {
        if |input| < i + 3 { return Err; }
        var value := HexPair(input[i + 1], input[i + 2]);
        if value.None? { return Err; }
        assert rest[3..] == input[i + 3..] && rest[1] == input[i + 1] && rest[2] == input[i + 2];
        PrependedTwice(bytes, value.value as char, Unescaped(rest[3..]));
        bytes, i := bytes + [value.value as char], i + 3;
      } else {
        assert rest[1..] == input[i + 1..];
        PrependedTwice(bytes, input[i], Unescaped(rest[1..]));
        bytes, i := bytes + [input[i]], i + 1;
      }
    }
    assert bytes + "" == bytes;
    return if ValidUtf8(bytes) then Ok(bytes) else Err;
  }

  lemma HexRoundTrip(n: nat)
    requires n < 256
    ensures HexPair(Hex(n / 16), Hex(n % 16)) == Some(n)
    ensures Hex(n / 16) != ':' && Hex(n % 16) != ':'
  {
  }

  /** Every byte string survives escaping; what escaping produces is unreserved characters and percent triples,
      so never a colon. */
  lemma {:induction false} EscapeRoundTrip(s: string)
    requires IsBytes(s)
    ensures Unescaped(Escaped(s)) == Ok(s)
    ensures forall i | 0 <= i < |Escaped(s)| :: Unreserved(Escaped(s)[i]) || Escaped(s)[i] == '%'
    ensures ':' !in Escaped(s)
  {
    if s != [] {
      var e, rest := Escaped(s), Escaped(s[1..]);
      EscapeRoundTrip(s[1..]);
      HexRoundTrip(s[0] as int);
      assert e[|EscapedByte(s[0])|..] == rest;
      assert [s[0]] + s[1..] == s;
    }
  }

  // ----- Keys

  function EntryKey(ns: Text, schema: Text, entity: Text, id: Text): string {
    Utf8IsBytes(ns);
    Utf8IsBytes(schema);
    Utf8IsBytes(entity);
    Utf8IsBytes(id);
    PREFIX + ":" + Escaped(ns) + ":" + Escaped(schema) + ":" + Escaped(entity) + ":" + Escaped(id)
  }

  function Colon(s: string): (i: nat)
    ensures i <= |s| && (i < |s| ==> s[i] == ':') && forall j | 0 <= j < i :: s[j] != ':'
  {
    if s == [] || s[0] == ':' then 0 else 1 + Colon(s[1..])
  }

  /** `splitn(n, ':')`. */
  function SplitN(s: string, n: nat): (parts: seq<string>)
    requires n > 0
    ensures 1 <= |parts| <= n
    decreases n
  {
    if n == 1 || Colon(s) == |s| then [s] else [s[..Colon(s)]] + SplitN(s[Colon(s) + 1..], n - 1)
  }

  function ParseRecordKey(key: string): Result<Option<KeyParts>> {
    if !(PREFIX <= key) then Ok(None)
    else
      var parts := SplitN(key, 5);
      if parts[0] != PREFIX then Ok(None)
      else if |parts| < 5 then Err
      else
        var ns, schema, entity, id :=
          Component(parts[1]), Component(parts[2]), Component(parts[3]), Component(parts[4]);
        if ns.Ok? && schema.Ok? && entity.Ok? && id.Ok?
        then Ok(Some(KeyParts(ns.value, schema.value, entity.value, id.value)))
        else Err
  }

  lemma SplitAtColon(part: string, rest: string, n: nat)
    requires n > 1 && ':' !in part
    ensures SplitN(part + ":" + rest, n) == [part] + SplitN(rest, n - 1)
  {
    var s := part + ":" + rest;
    assert s[|part|] == ':' && s[..|part|] == part && s[|part| + 1..] == rest;
    assert forall j | 0 <= j < |part| :: s[j] == part[j];
    assert Colon(s) == |part|;
  }

  function Joined(parts: seq<string>): string
    requires parts != []
  {
    if |parts| == 1 then parts[0] else parts[0] + ":" + Joined(parts[1..])
  }

  lemma {:induction false} SplitJoined(parts: seq<string>)
    requires parts != [] && forall i | 0 <= i < |parts| :: ':' !in parts[i]
    ensures SplitN(Joined(parts), |parts|) == parts
  {
    if |parts| > 1 {
      SplitJoined(parts[1..]);
      SplitAtColon(parts[0], Joined(parts[1..]), |parts|);
    }
  }

  lemma JoinFive(a: string, b: string, c: string, d: string, e: string)
    ensures Joined([a, b, c, d, e]) == a + ":" + b + ":" + c + ":" + d + ":" + e
  {
    var parts := [a, b, c, d, e];
    assert parts[1..] == [b, c, d, e] && parts[1..][1..] == [c, d, e] && [c, d, e][1..] == [d, e] && [d, e][1..] == [e];
    assert Joined([d, e]) == d + ":" + e;
    assert Joined([c, d, e]) == c + ":" + Joined([d, e]);
    assert Joined([b, c, d, e]) == b + ":" + Joined([c, d, e]);
    assert a + ":" + (b + ":" + (c + ":" + (d + ":" + e))) == a + ":" + b + ":" + c + ":" + d + ":" + e;
  }

  lemma SplitKey(ns: Text, schema: Text, entity: Text, id: Text)
    ensures IsBytes(ns) && IsBytes(schema) && IsBytes(entity) && IsBytes(id)
    ensures SplitN(EntryKey(ns, schema, entity, id), 5) ==
            [PREFIX, Escaped(ns), Escaped(schema), Escaped(entity), Escaped(id)]
  {
    Utf8IsBytes(ns);
    Utf8IsBytes(schema);
    Utf8IsBytes(entity);
    Utf8IsBytes(id);
    EscapeRoundTrip(ns);
    EscapeRoundTrip(schema);
    EscapeRoundTrip(entity);
    EscapeRoundTrip(id);
    hide SplitN, Escaped;
    JoinFive(PREFIX, Escaped(ns), Escaped(schema), Escaped(entity), Escaped(id));
    SplitJoined([PREFIX, Escaped(ns), Escaped(schema), Escaped(entity), Escaped(id)]);
  }

  lemma ComponentRoundTrip(s: Text)
    ensures IsBytes(s) && Component(Escaped(s)) == Ok(s)
  {
    Utf8IsBytes(s);
    EscapeRoundTrip(s);
  }

  /** A key parses back to exactly the four strings it was made from. */
  lemma KeyRoundTrip(ns: Text, schema: Text, entity: Text, id: Text)
    ensures ParseRecordKey(EntryKey(ns, schema, entity, id)) == Ok(Some(KeyParts(ns, schema, entity, id)))
  {
    SplitKey(ns, schema, entity, id);
    ComponentRoundTrip(ns);
    ComponentRoundTrip(schema);
    ComponentRoundTrip(entity);
    ComponentRoundTrip(id);
    hide SplitN, Component, Escaped, ValidUtf8, IsBytes;
    assert PREFIX <= EntryKey(ns, schema, entity, id);
  }

  /** So two records share a key only if they agree in namespace, schema, entity and id. */
  lemma KeysInjective(p: KeyParts, q: KeyParts)
    requires EntryKey(p.ns, p.schema, p.entity, p.id) == EntryKey(q.ns, q.schema, q.entity, q.id)
    ensures p == q
  {
    KeyRoundTrip(p.ns, p.schema, p.entity, p.id);
    KeyRoundTrip(q.ns, q.schema, q.entity, q.id);
  }

  /** A key that spells the id "a" as an escape: it parses like the record's own key, but is another string. */
  function AliasKey(ns: Text, schema: Text, entity: Text): string {
    Utf8IsBytes(ns);
    Utf8IsBytes(schema);
    Utf8IsBytes(entity);
    Joined([PREFIX, Escaped(ns), Escaped(schema), Escaped(entity), "%61"])
  }

  lemma AliasParses(ns: Text, schema: Text, entity: Text)
    ensures ParseRecordKey(AliasKey(ns, schema, entity)) == Ok(Some(KeyParts(ns, schema, entity, "a")))
    ensures AliasKey(ns, schema, entity) != EntryKey(ns, schema, entity, "a")
  {
    ComponentRoundTrip(ns);
    ComponentRoundTrip(schema);
    ComponentRoundTrip(entity);
    EscapeRoundTrip(ns);
    EscapeRoundTrip(schema);
    EscapeRoundTrip(entity);
    var parts := [PREFIX, Escaped(ns), Escaped(schema), Escaped(entity), "%61"];
    SpelledA();
    AliasDiffers(ns, schema, entity);
    SplitJoined(parts);
    JoinFive(PREFIX, Escaped(ns), Escaped(schema), Escaped(entity), "%61");
    hide SplitN, Component, Escaped, ValidUtf8, IsBytes, Joined;
    assert PREFIX <= AliasKey(ns, schema, entity);
  }

  lemma SpelledA()
    ensures Component("%61") == Ok("a") && Escaped("a") == "a" && ':' !in "%61"
  {
    assert "%61"[3..] == "" && ['a'] + "" == "a";
    assert "a"[1..] == "" && ['a'] + Escaped("") == "a";
  }

  lemma AliasDiffers(ns: Text, schema: Text, entity: Text)
    ensures AliasKey(ns, schema, entity) != EntryKey(ns, schema, entity, "a")
  {
    Utf8IsBytes(ns);
    Utf8IsBytes(schema);
    Utf8IsBytes(entity);
    SpelledA();
    hide Escaped, ValidUtf8, IsBytes;
    JoinFive(PREFIX, Escaped(ns), Escaped(schema), Escaped(entity), "%61");
    var front := PREFIX + ":" + Escaped(ns) + ":" + Escaped(schema) + ":" + Escaped(entity) + ":";
    assert |front + "%61"| != |front + "a"|;
  }

  // ----- Which spelling is the usual one

  predicate UpperHex(c: char) {
    '0' <= c <= '9' || 'A' <= c <= 'F'
  }

  /** Unreserved characters as themselves, every other byte as a percent sign and two upper-case digits. */
  predicate Usual(s: string) {
    || s == ""
    || (Unreserved(s[0]) && Usual(s[1..]))
    || (s[0] == '%' && |s| >= 3 && UpperHex(s[1]) && UpperHex(s[2]) && HexPair(s[1], s[2]).Some?
        && !Unreserved(HexPair(s[1], s[2]).value as char) && Usual(s[3..]))
  }

  lemma HexUsual(hi: char, lo: char)
    requires HexPair(hi, lo).Some?
    ensures var v := HexPair(hi, lo).value;
            Hex(v / 16) == hi && Hex(v % 16) == lo <==> UpperHex(hi) && UpperHex(lo)
  {
  }

  lemma {:induction false} EscapedIffUsual(s: string)
    requires Unescaped(s).Ok? && IsBytes(Unescaped(s).value)
    ensures Escaped(Unescaped(s).value) == s <==> Usual(s)
  {
    if s != "" {
      var rest := if s[0] == '%' then s[3..] else s[1..];
      BytesStep(s, rest);
      EscapedIffUsual(rest);
      hide Unescaped, Escaped, Usual, Unreserved, HexPair, Hex;
      UsualStep(s, rest, Unescaped(s).value[0], Unescaped(rest).value);
    }
  }

  lemma BytesStep(s: string, rest: string)
    requires s != "" && Unescaped(s).Ok? && IsBytes(Unescaped(s).value)
    requires rest == if s[0] == '%' then s[3..] else s[1..]
    ensures Unescaped(rest).Ok? && IsBytes(Unescaped(rest).value)
    ensures Unescaped(s).value == [Unescaped(s).value[0]] + Unescaped(rest).value
    ensures if s[0] == '%' then HexPair(s[1], s[2]).Some? && Unescaped(s).value[0] as int == HexPair(s[1], s[2]).value
            else Unescaped(s).value[0] == s[0]
  {
    var bytes, more := Unescaped(s).value, Unescaped(rest).value;
    assert forall i | 0 <= i < |more| :: more[i] == bytes[i + 1];
  }

  lemma UsualStep(s: string, rest: string, c: char, more: string)
    requires s != "" && (s[0] == '%' ==> |s| >= 3) && rest == if s[0] == '%' then s[3..] else s[1..]
    requires c as int < 256 && IsBytes(more) && IsBytes([c] + more)
    requires if s[0] == '%' then HexPair(s[1], s[2]).Some? && c as int == HexPair(s[1], s[2]).value else c == s[0]
    requires Escaped(more) == rest <==> Usual(rest)
    ensures Escaped([c] + more) == s <==> Usual(s)
  {
    assert ([c] + more)[1..] == more;
    assert Escaped([c] + more) == EscapedByte(c) + Escaped(more);
    var first := s[..|s| - |rest|];
    assert s == first + rest;
    assert !Unreserved('%');
    if s[0] == '%' { HexUsual(s[1], s[2]); }
    hide HexPair, UpperHex, Hex, Escaped, Unreserved;
    SameSplit(EscapedByte(c), Escaped(more), first, rest);
    if EscapedByte(c) + Escaped(more) == s { SameStart(EscapedByte(c), Escaped(more), s); }
  }

  lemma SameStart(a: string, b: string, s: string)
    requires a != "" && a + b == s
    ensures s != "" && s[0] == a[0]
  {
  }

  lemma SameSplit(a: string, b: string, c: string, d: string)
    ensures |a| == |c| ==> (a + b == c + d <==> a == c && b == d)
  {
    if |a| == |c| && a + b == c + d {
      assert a == (a + b)[..|a|] && c == (c + d)[..|a|] && b == (a + b)[|a|..] && d == (c + d)[|a|..];
    }
  }

  lemma {:induction false} JoinSplit(s: string, n: nat)
    requires n > 0
    ensures Joined(SplitN(s, n)) == s
    decreases n
  {
    if n > 1 && Colon(s) < |s| {
      JoinSplit(s[Colon(s) + 1..], n - 1);
      assert s == s[..Colon(s)] + ":" + s[Colon(s) + 1..];
    }
  }

  predicate UsualKey(key: string) {
    var parts := SplitN(key, 5);
    |parts| == 5 && Usual(parts[1]) && Usual(parts[2]) && Usual(parts[3]) && Usual(parts[4])
  }

  lemma ComponentUsual(s: string)
    requires Component(s).Ok?
    ensures IsBytes(Component(s).value) && (Escaped(Component(s).value) == s <==> Usual(s))
  {
    Utf8IsBytes(Component(s).value);
    EscapedIffUsual(s);
  }

  /** Parsing takes several spellings; a parsed key is the one its parts are stored under if and only if each
      component is spelled in the usual way. */
  lemma OwnIffUsual(key: string, p: KeyParts)
    requires ParseRecordKey(key) == Ok(Some(p))
    ensures EntryKey(p.ns, p.schema, p.entity, p.id) == key <==> UsualKey(key)
  {
    ParsedParts(key, p);
    hide ParseRecordKey, SplitN, Component, Escaped, ValidUtf8, Usual, EntryKey, UsualKey;
    var parts := SplitN(key, 5);
    SpelledUsually(parts[1], parts[2], parts[3], parts[4], p);
    SameParts(key, EntryKey(p.ns, p.schema, p.entity, p.id));
  }

  lemma SpelledUsually(a: string, b: string, c: string, d: string, p: KeyParts)
    requires Component(a) == Ok(p.ns) && Component(b) == Ok(p.schema) && Component(c) == Ok(p.entity)
      && Component(d) == Ok(p.id)
    ensures SplitN(EntryKey(p.ns, p.schema, p.entity, p.id), 5) == [PREFIX, a, b, c, d] <==>
              Usual(a) && Usual(b) && Usual(c) && Usual(d)
  {
    hide SplitN, Component, Escaped, ValidUtf8, Usual, EntryKey;
    ComponentUsual(a);
    ComponentUsual(b);
    ComponentUsual(c);
    ComponentUsual(d);
    SplitKey(p.ns, p.schema, p.entity, p.id);
  }

  lemma SameParts(s: string, t: string)
    ensures s == t <==> SplitN(s, 5) == SplitN(t, 5)
  {
    hide SplitN;
    JoinSplit(s, 5);
    JoinSplit(t, 5);
  }

  lemma ParsedParts(key: string, p: KeyParts)
    requires ParseRecordKey(key) == Ok(Some(p))
    ensures var parts := SplitN(key, 5);
            && |parts| == 5 && parts == [PREFIX, parts[1], parts[2], parts[3], parts[4]]
            && Component(parts[1]) == Ok(p.ns) && Component(parts[2]) == Ok(p.schema)
            && Component(parts[3]) == Ok(p.entity) && Component(parts[4]) == Ok(p.id)
            && (UsualKey(key) <==> Usual(parts[1]) && Usual(parts[2]) && Usual(parts[3]) && Usual(parts[4]))
  {
    hide SplitN, Component, Usual;
  }

  /** Parsing is not injective: a foreign key may spell a byte another way, down to a plus sign for a zero. */
  lemma KeysHaveAliases()
    ensures Unescaped("%+A") == Unescaped("%0a") == Unescaped("%0A") == Ok("\n")
  {
    assert "%+A"[3..] == "" && "%0a"[3..] == "" && "%0A"[3..] == "";
    assert ['\n'] + "" == "\n";
  }
}
