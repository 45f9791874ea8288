/** A database file mirrored into the state as a base image plus a page delta. */
module SqliteAdapter {
  import opened Clocks
  import opened DeltaCodec
  import opened PageDeltas
  import opened SyncState
  import opened Values

  function DeltaKey(key: string): string {
    key + ":delta"
  }

  function BytesAt(m: Entries, key: string): Option<Bytes> {
    if key in m && m[key].value.Raw? then Some(m[key].value.bytes) else None
  }

  /** A local write, unless the bytes are already there. */
  function Written(s: Replica, key: string, bytes: Bytes): Replica {
    if BytesAt(s.entries, key) == Some(bytes) then s else s.Set(key, Raw(bytes))
  }

  function Updated(s: Replica, key: string, pageDelta: Option<nat>, bytes: Bytes): Result<Replica>
    requires pageDelta.Some? ==> pageDelta.value > 0
    requires |bytes| <= U64_MAX
  {
    var base := BytesAt(s.entries, key);
    if pageDelta.None? || base.None? then Ok(Written(s, key, bytes))
    else
      var delta := Computed(base.value, bytes, pageDelta.value);
      if delta.pages == [] then Ok(Written(s, DeltaKey(key), []))
      else
        var encoding := Encoded(delta);
        if encoding.Err? then Err
        else if |encoding.value| < |bytes| then Ok(Written(s, DeltaKey(key), encoding.value))
        else Ok(Written(Written(s, key, bytes), DeltaKey(key), []))
  }

  function ReadBack(m: Entries, key: string): Option<Bytes> {
    var base, delta := BytesAt(m, key), BytesAt(m, DeltaKey(key));
    if delta.Some? && delta.value != [] && base.Some? && Parsed(delta.value).Ok?
    then Some(Applied(base.value, Parsed(delta.value).value))
    else base
  }

  class SqliteFileAdapter {
    const key: string
    const pageDelta: Option<nat>

    ghost predicate Valid() {
      pageDelta.Some? ==> pageDelta.value >= 512
    }

    constructor (key: string)
      ensures Valid() && this.key == key && pageDelta == None
    {
      this.key, pageDelta := key, None;
    }

    constructor WithPageDelta(key: string, pageSize: nat)
      ensures Valid() && this.key == key && pageDelta == Some(if pageSize < 512 then 512 else pageSize)
    {
      this.key, pageDelta := key, Some(if pageSize < 512 then 512 else pageSize);
    }

    method Get(state: State, k: string) returns (r: Option<Bytes>)
      ensures r == BytesAt(state.entries, k)
    {
      r := if k in state.entries && state.entries[k].value.Raw? then Some(state.entries[k].value.bytes) else None;
    }

    /** Writes `bytes` unless `current` says they are there. */
    method Write(state: State, k: string, current: Option<Bytes>, bytes: Bytes)
      requires current == BytesAt(state.entries, k)
      modifies state
      ensures state.Value() == Written(old(state.Value()), k, bytes)
    {
      if current != Some(bytes) {
        var entry := state.Set(k, Raw(bytes));
      }
    }

    method UpdateState(state: State, bytes: Bytes) returns (ok: bool)
      requires Valid() && |bytes| <= U64_MAX
      modifies state
      ensures match Updated(old(state.Value()), key, pageDelta, bytes)
              case Ok(after) => ok && state.Value() == after
              case Err => !ok && state.Value() == old(state.Value())
    {
      hide Computed, Encoded, Replica.Set, EncodedPages, Writable;
      var current := Get(state, key);
      var deltaCurrent := Get(state, DeltaKey(key));
      if pageDelta.None? || current.None? {
        Write(state, key, current, bytes);
        return true;
      }
      var delta := ComputePageDelta(current.value, bytes, pageDelta.value);
      if delta.pages == [] {
        Write(state, DeltaKey(key), deltaCurrent, []);
        return true;
      }
      var encoding := EncodeSqliteDelta(delta);
      if encoding.Err? {
        return false;
      }
      if |encoding.value| < |bytes| {
        Write(state, DeltaKey(key), deltaCurrent, encoding.value);
      } else {
        PutElsewhere(state.Value(), key, bytes, DeltaKey(key));
        Write(state, key, current, bytes);
        Write(state, DeltaKey(key), deltaCurrent, []);
      }
      return true;
    }

    method BytesFromState(state: State) returns (r: Option<Bytes>)
      ensures r == ReadBack(state.entries, key)
    {
      r := Get(state, key);
      var delta := Get(state, DeltaKey(key));
      if delta.Some? && delta.value != [] {
        var decoded := DecodeSqliteDelta(delta.value);
        if r.Some? && decoded.Ok? {
          var output := ApplyPageDelta(r.value, decoded.value);
          return Some(output);
        }
      }
    }
  }

  lemma KeysDiffer(key: string)
    ensures DeltaKey(key) != key
  {
    assert |DeltaKey(key)| > |key|;
  }

  /** A write touches its own key only. */
  lemma PutElsewhere(s: Replica, key: string, bytes: Bytes, other: string)
    ensures BytesAt(Written(s, key, bytes).entries, key) == Some(bytes)
    ensures other != key ==> BytesAt(Written(s, key, bytes).entries, other) == BytesAt(s.entries, other)
    ensures DeltaKey(key) != key
  {
    KeysDiffer(key);
  }

  // ----- What is stored reads back

  /** With page deltas on and a base stored, the file reads back exactly - unless it is the base cut at a page
      boundary, which leaves the base standing. */
  lemma ReadsBackUnlessCut(s: Replica, key: string, pageSize: nat, bytes: Bytes)
    requires Representable(bytes, pageSize) && |bytes| <= U64_MAX && BytesAt(s.entries, key).Some?
    ensures var base, after := BytesAt(s.entries, key).value, Updated(s, key, Some(pageSize), bytes);
            && after.Ok?
            && (ReadBack(after.value.entries, key) == Some(bytes) <==> !CutAtPage(base, bytes, pageSize))
            && (CutAtPage(base, bytes, pageSize) ==> ReadBack(after.value.entries, key) == Some(base))
  {
    var base := BytesAt(s.entries, key).value;
    var delta := Computed(base, bytes, pageSize);
    ComputedValid(base, bytes, pageSize);
    DecodeEncode(delta);
    ApplyComputed(base, bytes, pageSize);
    EmptyDelta(base, bytes, pageSize);
    var encoding := Encoded(delta).value;
    ParsedNotEmpty(encoding);
    hide Parsed, Encoded, Computed, ValidDelta, Representable, Written, DeltaKey, Applied;
    PutElsewhere(s, key, bytes, DeltaKey(key));
    PutElsewhere(s, DeltaKey(key), [], key);
    PutElsewhere(s, DeltaKey(key), encoding, key);
    PutElsewhere(Written(s, key, bytes), DeltaKey(key), [], key);
  }

  lemma ParsedNotEmpty(encoding: Bytes)
    requires Parsed(encoding).Ok?
    ensures encoding != []
  {
  }

  /** Whether the delta left from earlier would not disturb `bytes` as a base. */
  ghost predicate Harmless(m: Entries, key: string, bytes: Bytes) {
    var delta := BytesAt(m, DeltaKey(key));
    delta.Some? && delta.value != [] && Parsed(delta.value).Ok? ==> Applied(bytes, Parsed(delta.value).value) == bytes
  }

  /** Without page deltas, or on the first write, only the base is written: it reads back unless an old delta
      is lying around that changes it. */
  lemma ReadsBackWithoutDelta(s: Replica, key: string, pageDelta: Option<nat>, bytes: Bytes)
    requires (pageDelta.Some? ==> pageDelta.value > 0) && |bytes| <= U64_MAX
    requires pageDelta.None? || BytesAt(s.entries, key).None?
    ensures var after := Updated(s, key, pageDelta, bytes);
            after.Ok? && (ReadBack(after.value.entries, key) == Some(bytes) <==> Harmless(s.entries, key, bytes))
  {
    PutElsewhere(s, key, bytes, DeltaKey(key));
    hide Parsed, Written, DeltaKey, Applied, Computed, Encoded;
  }

  /** Mirroring the same file again writes nothing, so it produces no traffic. */
  lemma UpdateSettles(s: Replica, key: string, pageDelta: Option<nat>, bytes: Bytes)
    requires (pageDelta.Some? ==> pageDelta.value > 0) && |bytes| <= U64_MAX && Updated(s, key, pageDelta, bytes).Ok?
    requires pageDelta.Some? ==> BytesAt(s.entries, key).Some?
    ensures var after := Updated(s, key, pageDelta, bytes).value; Updated(after, key, pageDelta, bytes) == Ok(after)
  {
    PutElsewhere(s, key, bytes, DeltaKey(key));
    if pageDelta.Some? {
      var base := BytesAt(s.entries, key).value;
      var delta := Computed(base, bytes, pageDelta.value);
      EmptyDelta(bytes, bytes, pageDelta.value);
      PutElsewhere(s, DeltaKey(key), [], key);
      PutElsewhere(Written(s, key, bytes), DeltaKey(key), [], key);
      if Encoded(delta).Ok? { PutElsewhere(s, DeltaKey(key), Encoded(delta).value, key); }
    }
    PutTwice(s, key, bytes);
    hide DeltaKey, Computed, Encoded, BytesAt, Replica.Set;
  }

  lemma PutTwice(s: Replica, key: string, bytes: Bytes)
    ensures Written(Written(s, key, bytes), key, bytes) == Written(s, key, bytes)
  {
  }
}
