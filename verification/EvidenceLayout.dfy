/** The byte format of the evidence preimage, place by place, and the arithmetic of its hash. */
module EvidenceLayout {
  import opened Results
  import opened Evidence
  import opened EvidenceRecord

  // ----- Reading one field ------------------------------------------------------------------------------------------

  // What little-endian bytes are worth.
  function Worth(bytes: seq<Byte>): nat { if bytes == [] then 0 else bytes[0] + 256 * Worth(bytes[1..]) }

  // These bytes are this value's.
  ghost predicate Reads(kind: Kind, v: Option<Value>, bytes: seq<Byte>) {
    && v.Some? && |bytes| == Width(kind)
    && match kind
       case Unsigned(_) => v.value.Int? && Worth(bytes) == v.value.n
       case Signed =>
         && v.value.Int? && -0x8000_0000_0000_0000 <= v.value.n < 0x8000_0000_0000_0000
         && Worth(bytes) == if v.value.n >= 0 then v.value.n else v.value.n + 0x1_0000_0000_0000_0000
       case FixedText(width) =>
         && v.value.Text? && 0 < |v.value.s| < width
         && forall i | 0 <= i < width ::
              if i < |v.value.s| then bytes[i] == v.value.s[i] as int && 0 < bytes[i] < 128 else bytes[i] == 0
       case Flag => v.value.Bool? && Worth(bytes) == if v.value.b then 1 else 0
  }

  lemma {:induction false} LittleIsWorth(n: nat, bytes: seq<Byte>)
    ensures n < Power256(|bytes|) && Little(n, |bytes|) == bytes <==> Worth(bytes) == n
  {
    if bytes != [] {
      LittleIsWorth(n / 256, bytes[1..]);
      assert bytes == [bytes[0]] + bytes[1..];
      assert Little(n, |bytes|)[1..] == Little(n / 256, |bytes| - 1) && Little(n, |bytes|)[0] == n % 256;
    }
  }

  lemma WorthIsBounded(bytes: seq<Byte>)
    ensures Worth(bytes) < Power256(|bytes|)
  {
    LittleIsWorth(Worth(bytes), bytes);
  }

  lemma SmallEnough()
    ensures Power256(8) == 0x1_0000_0000_0000_0000 && Power256(4) > 1
  {
    WordIsPower256();
    SmallPower();
  }

  lemma TextReads(v: Option<Value>, width: nat, bytes: seq<Byte>)
    ensures FixedAscii(v, width) == Some(bytes) <==> Reads(FixedText(width), v, bytes)
  {
    if Reads(FixedText(width), v, bytes) {
      var s := v.value.s;
      forall i | 0 <= i < |s| ensures 0 < s[i] as int < 128 { assert bytes[i] == s[i] as int; }
      assert Codes(s) + Zeros(width - |s|) == bytes;
    }
  }

  /** Exactly which bytes each field is encoded as. */
  lemma EncodesExactly(kind: Kind, v: Option<Value>, bytes: seq<Byte>)
    ensures EncodeField(kind, v) == Some(bytes) <==> Reads(kind, v, bytes)
  {
    hide Little, Worth, Power256, Ascii, Codes, Zeros;
    SmallEnough();
    WorthIsBounded(bytes);
    match kind
    case Unsigned(_) => if v.Some? && v.value.Int? && v.value.n >= 0 { LittleIsWorth(v.value.n, bytes); }
    case Signed =>
      if v.Some? && v.value.Int? && -HALF_WORD <= v.value.n < HALF_WORD {
        LittleIsWorth(if v.value.n < 0 then v.value.n + WORD else v.value.n, bytes);
      }
    case FixedText(width) => TextReads(v, width, bytes);
    case Flag => if v.Some? && v.value.Bool? { LittleIsWorth(if v.value.b then 1 else 0, bytes); }
  }

  // ----- Where each field is ---------------------------------------------------------------------------------

  function Start(layout: seq<Field>, i: nat): nat
    requires i <= |layout|
  {
    TotalWidth(layout[..i])
  }

  lemma Next(layout: seq<Field>, i: nat)
    requires i < |layout|
    ensures Start(layout, i + 1) == Start(layout, i) + Width(layout[i].kind)
  {
    assert layout[..i + 1][..i] == layout[..i];
  }

  lemma {:induction false} StartsGrow(layout: seq<Field>, i: nat)
    requires i <= |layout|
    ensures Start(layout, i) <= TotalWidth(layout)
    decreases |layout| - i
  {
    hide Start, TotalWidth;
    if i < |layout| {
      Next(layout, i);
      StartsGrow(layout, i + 1);
    } else {
      WholeLayout(layout);
    }
  }

  lemma WholeLayout(layout: seq<Field>)
    ensures Start(layout, |layout|) == TotalWidth(layout)
  {
    assert layout[..|layout|] == layout;
  }

  // The bytes of field i.
  function Slice(layout: seq<Field>, bytes: seq<Byte>, i: nat): seq<Byte>
    requires i < |layout| && |bytes| == TotalWidth(layout)
  {
    Next(layout, i);
    StartsGrow(layout, i + 1);
    bytes[Start(layout, i)..Start(layout, i + 1)]
  }

  lemma EncodedSlice(layout: seq<Field>, record: JsonObject, i: nat)
    requires Encode(layout, record).Some? && i < |layout|
    ensures var bytes := Flatten(Encode(layout, record).value);
      && |bytes| == TotalWidth(layout)
      && EncodeField(layout[i].kind, Get(record, layout[i].name)) == Some(Slice(layout, bytes, i))
  {
    hide EncodeField, Flatten, TotalWidth, Get;
    var parts := Encode(layout, record).value;
    EncodedLength(layout, record);
    EncodedAt(layout, record, i);
    FlattenAround(parts, i);
    EncodePrefix(layout, record, i);
    PrefixParts(layout, record, i);
    EncodedLength(layout[..i], record);
    Next(layout, i);
    hide Encode;
    var before, after := Flatten(parts[..i]), Flatten(parts[i + 1..]);
    assert (before + parts[i] + after)[|before|..|before| + |parts[i]|] == parts[i];
  }

  lemma {:induction false} PrefixParts(layout: seq<Field>, record: JsonObject, n: nat)
    requires Encode(layout, record).Some? && n <= |layout|
    ensures Encode(layout[..n], record) == Some(Encode(layout, record).value[..n])
  {
    hide EncodeField;
    if n < |layout| {
      var front := layout[..|layout| - 1];
      PrefixParts(front, record, n);
      assert front[..n] == layout[..n];
      var parts := Encode(layout, record).value;
      assert parts[..|front|] == Encode(front, record).value;
      assert parts[..n] == parts[..|front|][..n];
    } else {
      assert layout[..n] == layout && Encode(layout, record).value[..n] == Encode(layout, record).value;
    }
  }

  lemma {:induction false} AllEncoded(layout: seq<Field>, record: JsonObject)
    requires forall i | 0 <= i < |layout| :: EncodeField(layout[i].kind, Get(record, layout[i].name)).Some?
    ensures Encode(layout, record).Some?
  {
    hide EncodeField;
    if layout != [] { AllEncoded(layout[..|layout| - 1], record); }
  }

  lemma {:induction false} SlicesDecide(layout: seq<Field>, a: seq<Byte>, b: seq<Byte>, n: nat)
    requires |a| == |b| == TotalWidth(layout) && n <= |layout|
    requires forall i | 0 <= i < |layout| :: Slice(layout, a, i) == Slice(layout, b, i)
    ensures Start(layout, n) <= |a| && a[..Start(layout, n)] == b[..Start(layout, n)]
  {
    hide TotalWidth, Start;
    StartsGrow(layout, n);
    if n == 0 {
      StartIsZero(layout);
    } else {
      SlicesDecide(layout, a, b, n - 1);
      Next(layout, n - 1);
      var s, t := Start(layout, n - 1), Start(layout, n);
      assert Slice(layout, a, n - 1) == a[s..t] && Slice(layout, b, n - 1) == b[s..t];
      assert a[..t] == a[..s] + a[s..t] && b[..t] == b[..s] + b[s..t];
    }
  }

  lemma StartIsZero(layout: seq<Field>)
    ensures Start(layout, 0) == 0
  {
  }

  // Every field's bytes are its value's.
  ghost predicate AllRead(layout: seq<Field>, record: JsonObject, bytes: seq<Byte>) {
    && |bytes| == TotalWidth(layout)
    && forall i | 0 <= i < |layout| :: Reads(layout[i].kind, Get(record, layout[i].name), Slice(layout, bytes, i))
  }

  lemma FieldsExactly(layout: seq<Field>, record: JsonObject, bytes: seq<Byte>)
    ensures (Encode(layout, record).Some? && Flatten(Encode(layout, record).value) == bytes) <==>
      AllRead(layout, record, bytes)
  {
    hide Encode, EncodeField, Flatten, TotalWidth, Get, Reads, Slice;
    if Encode(layout, record).Some? && Flatten(Encode(layout, record).value) == bytes {
      EncodedLength(layout, record);
      forall i | 0 <= i < |layout|
        ensures Reads(layout[i].kind, Get(record, layout[i].name), Slice(layout, bytes, i))
      {
        EncodedSlice(layout, record, i);
        EncodesExactly(layout[i].kind, Get(record, layout[i].name), Slice(layout, bytes, i));
      }
    }
    if AllRead(layout, record, bytes) {
      forall i | 0 <= i < |layout| ensures EncodeField(layout[i].kind, Get(record, layout[i].name)).Some? {
        EncodesExactly(layout[i].kind, Get(record, layout[i].name), Slice(layout, bytes, i));
      }
      AllEncoded(layout, record);
      ReadIsEncoded(layout, record, bytes);
    }
  }

  lemma ReadIsEncoded(layout: seq<Field>, record: JsonObject, bytes: seq<Byte>)
    requires AllRead(layout, record, bytes) && Encode(layout, record).Some?
    ensures Flatten(Encode(layout, record).value) == bytes
  {
    hide Encode, EncodeField, Flatten, TotalWidth, Get, Reads, Slice, Start;
    var encoded := Flatten(Encode(layout, record).value);
    EncodedLength(layout, record);
    forall i | 0 <= i < |layout| ensures Slice(layout, encoded, i) == Slice(layout, bytes, i) {
      EncodedSlice(layout, record, i);
      EncodesExactly(layout[i].kind, Get(record, layout[i].name), Slice(layout, bytes, i));
    }
    SlicesDecide(layout, encoded, bytes, |layout|);
    WholeLayout(layout);
    assert encoded[..|encoded|] == encoded && bytes[..|bytes|] == bytes;
  }

  // ----- The format ------------------------------------------------------------------------------------------

  datatype Place = Place(name: string, kind: Kind, offset: nat)

  function LeadingPlaces(): seq<Place> {
    [Place("symbol", FixedText(17), 5), Place("instrument_id_high", Unsigned(8), 22),
     Place("instrument_id_low", Unsigned(8), 30), Place("client_order_id", FixedText(33), 38),
     Place("price_ticks", Signed, 71), Place("price_increment_currency_nanos", Unsigned(8), 79),
     Place("quantity_units", Unsigned(8), 87)]
  }

  // Fifteen numbers of eight bytes, from byte 95.
  function NumberNames(): seq<string> {
    ["router_configuration_hash", "routing_request_hash", "routing_decision_hash", "risk_snapshot_hash",
     "risk_context_hash", "risk_decision_hash", "risk_journal_sequence", "oms_configuration_hash", "oms_command_hash",
     "oms_journal_sequence", "gateway_configuration_hash", "gateway_request_hash", "gateway_audit_sequence",
     "gateway_audit_hash", "gateway_outbound_sequence"]
  }

  // Eight flags of four bytes, from byte 215.
  function FlagNames(): seq<string> {
    ["paper_mode", "buy_only", "regular_hours_only", "fresh_pretrade_risk_required", "risk_approved",
     "oms_command_valid", "gateway_final_gate_accepted", "live_trading_compiled"]
  }

  function Row(names: seq<string>, kind: Kind, first: nat): (r: seq<Place>)
    ensures |r| == |names| && forall i | 0 <= i < |r| :: r[i] == Place(names[i], kind, first + i * Width(kind))
  {
    seq(|names|, i requires 0 <= i < |names| => Place(names[i], kind, first + i * Width(kind)))
  }

  // Every field, its kind and the place of its first byte, after the five bytes of version and stage.
  function Places(): seq<Place> {
    LeadingPlaces() + Row(NumberNames(), Unsigned(8), 95) + Row(FlagNames(), Flag, 215)
  }

  ghost predicate Placed(layout: seq<Field>, places: seq<Place>) {
    && |layout| == |places| == 30
    && forall i | 0 <= i < 30 :: layout[i] == Field(places[i].name, places[i].kind)
  }

  lemma LeadingIsPlaced()
    ensures |LeadingFields()| == |LeadingPlaces()| == 7
    ensures forall i | 0 <= i < 7 :: LeadingFields()[i] == Field(LeadingPlaces()[i].name, LeadingPlaces()[i].kind)
  {
  }

  lemma NamesAgree()
    ensures NumberNames() == NumberFields() && |NumberNames()| == 15
    ensures FlagNames() == FlagFields() && |FlagNames()| == 8
  {
  }

  lemma LayoutIsPlaced()
    ensures Placed(Layout(), Places())
  {
    hide LeadingFields, LeadingPlaces, NumberFields, NumberNames, FlagFields, FlagNames;
    LeadingIsPlaced();
    NamesAgree();
  }

  // Each place begins where the one before ends.
  ghost predicate Abut(places: seq<Place>) {
    && |places| == 30 && places[0].offset == 5 && places[29].offset + Width(places[29].kind) == 247
    && forall i | 0 <= i < 29 :: places[i + 1].offset == places[i].offset + Width(places[i].kind)
  }

  lemma LeadingAbut()
    ensures var places := LeadingPlaces();
      && |places| == 7 && places[0].offset == 5 && places[6].offset + Width(places[6].kind) == 95
      && forall i | 0 <= i < 6 :: places[i + 1].offset == places[i].offset + Width(places[i].kind)
  {
  }

  lemma PlacesAbut()
    ensures Abut(Places())
  {
    hide LeadingPlaces, NumberNames, FlagNames, NumberFields, FlagFields;
    LeadingAbut();
    NamesAgree();
    var places := Places();
    forall i | 0 <= i < 29 ensures places[i + 1].offset == places[i].offset + Width(places[i].kind) {
      if i < 6 {
        assert places[i] == LeadingPlaces()[i] && places[i + 1] == LeadingPlaces()[i + 1];
      }
    }
  }

  lemma {:induction false} PlaceIsStart(layout: seq<Field>, places: seq<Place>, i: nat)
    requires Placed(layout, places) && Abut(places) && i < 30
    ensures places[i].offset == 5 + Start(layout, i)
  {
    hide Start;
    if i == 0 {
      StartIsZero(layout);
    } else {
      PlaceIsStart(layout, places, i - 1);
      Next(layout, i - 1);
    }
  }

  lemma WidthOf(layout: seq<Field>, places: seq<Place>)
    requires Placed(layout, places) && Abut(places)
    ensures TotalWidth(layout) == 242
  {
    hide Start, TotalWidth;
    PlaceIsStart(layout, places, 29);
    Next(layout, 29);
    WholeLayout(layout);
  }

  lemma FlattenedHeader()
    ensures Flatten(HEADER) == [1, 0, 0, 0, 1]
  {
    hide Flatten;
    FlattenThree([[1, 0]], [0, 0], [[1]]);
    FlattenOne([1, 0]);
    FlattenOne([1]);
    assert HEADER == [[1, 0]] + [[0, 0]] + [[1]];
  }

  // The format, read off the bytes.
  ghost predicate Formatted(record: JsonObject, bytes: seq<Byte>) {
    && |bytes| == 247 && bytes[..5] == [1, 0, 0, 0, 1]
    && forall i | 0 <= i < |Places()| ::
         var p := Places()[i];
         && p.offset + Width(p.kind) <= 247
         && Reads(p.kind, Get(record, p.name), bytes[p.offset..p.offset + Width(p.kind)])
  }

  lemma PlaceReads(layout: seq<Field>, places: seq<Place>, record: JsonObject, bytes: seq<Byte>, i: nat)
    requires Placed(layout, places) && Abut(places) && |bytes| == 247 && TotalWidth(layout) == 242 && i < 30
    ensures var p := places[i];
      && p.offset + Width(p.kind) <= 247
      && bytes[p.offset..p.offset + Width(p.kind)] == Slice(layout, bytes[5..], i)
  {
    hide Start, TotalWidth, Width;
    PlaceIsStart(layout, places, i);
    Next(layout, i);
    StartsGrow(layout, i + 1);
    var s, t := Start(layout, i), Start(layout, i + 1);
    assert bytes[5..][s..t] == bytes[5 + s..5 + t];
  }

  lemma FormattedExactly(record: JsonObject, bytes: seq<Byte>)
    ensures Formatted(record, bytes) <==>
      |bytes| == 247 && bytes[..5] == [1, 0, 0, 0, 1] && AllRead(Layout(), record, bytes[5..])
  {
    LayoutIsPlaced();
    PlacesAbut();
    hide Layout, Places, Reads, TotalWidth, Width, Slice, Get;
    WidthOf(Layout(), Places());
    if |bytes| == 247 {
      forall i | 0 <= i < 30
        ensures var p := Places()[i];
          p.offset + Width(p.kind) <= 247
          && bytes[p.offset..p.offset + Width(p.kind)] == Slice(Layout(), bytes[5..], i)
      {
        PlaceReads(Layout(), Places(), record, bytes, i);
      }
    }
  }

  /** Exactly what is hashed: for every record and every string of bytes,
  the bytes are the record's preimage if and only
      if the record has the supported schema version and the 247 bytes hold the version, the stage and every field's
      value at its place. */
  lemma PreimageExactly(record: JsonObject, bytes: seq<Byte>)
    ensures Preimage(record) == Some(bytes) <==>
      Get(record, "schema_version") == Some(Text("1.0.0")) && Formatted(record, bytes)
  {
    FormattedExactly(record, bytes);
    hide Encode, Layout, Flatten, Formatted, Get, AllRead;
    FlattenedHeader();
    WidthIs(record, bytes);
    var header: seq<Byte> := [1, 0, 0, 0, 1];
    if Encode(Layout(), record).Some? {
      var parts := Encode(Layout(), record).value;
      FlattenJoins(HEADER, parts);
      assert (header + Flatten(parts))[5..] == Flatten(parts);
    }
    if |bytes| >= 5 {
      FieldsExactly(Layout(), record, bytes[5..]);
      assert bytes == bytes[..5] + bytes[5..];
    }
  }

  lemma WidthIs(record: JsonObject, bytes: seq<Byte>)
    ensures |bytes| >= 5 && AllRead(Layout(), record, bytes[5..]) ==> |bytes| == 247
    ensures Encode(Layout(), record).Some? ==> |Flatten(Encode(Layout(), record).value)| == 242
  {
    LayoutIsPlaced();
    PlacesAbut();
    hide Layout, Places, Reads, TotalWidth, Slice, Encode, Flatten, Get;
    WidthOf(Layout(), Places());
    if Encode(Layout(), record).Some? { EncodedLength(Layout(), record); }
  }

  // ----- The hash --------------------------------------------------------------------------------------------

  /** Bit by bit, exclusive or is one where the two differ. */
  lemma {:induction false} XorBits(a: nat, b: nat, k: nat)
    ensures Power2(k) > 0 && ((Xor(a, b) / Power2(k)) % 2 == 1 <==> (a / Power2(k)) % 2 != (b / Power2(k)) % 2)
  {
    hide Xor;
    XorParts(a, b);
    if k > 0 {
      XorBits(a / 2, b / 2, k - 1);
      HalfFirst(a, Power2(k - 1));
      HalfFirst(b, Power2(k - 1));
      HalfFirst(Xor(a, b), Power2(k - 1));
    }
  }

  lemma HalfFirst(a: nat, p: nat)
    requires p > 0
    ensures a / (2 * p) == a / 2 / p
  {
    var q := a / 2 / p;
    var r, e := a / 2 - q * p, a % 2;
    assert 0 <= r < p;
    assert a == q * (2 * p) + (2 * r + e) && 0 <= 2 * r + e < 2 * p;
    QuotientIs(a, 2 * p, q, 2 * r + e);
  }

  lemma QuotientIs(a: int, m: int, q: int, r: int)
    requires m > 0 && a == q * m + r && 0 <= r < m
    ensures a / m == q
  {
    if a / m != q { MultipleIsFar(a / m - q, m); }
    assert (a / m - q) * m == r - a % m;
  }

  /** The hash of a byte string one byte longer is its hash with the byte mixed in, multiplied by the prime modulo 2^64,
      from the offset on. */
  lemma HashArithmetic(bytes: seq<Byte>, byte: Byte)
    ensures Fold(OFFSET, []) == 1_469_598_103_934_665_603
    ensures Fold(OFFSET, bytes + [byte])
         == (Xor(Fold(OFFSET, bytes), byte) * 1_099_511_628_211) % 0x1_0000_0000_0000_0000
  {
    hide Xor;
    assert (bytes + [byte])[..|bytes|] == bytes;
  }
}
