/** The evidence preimage: every hashed field in a fixed order and width. */
module EvidenceRecord {
  import opened Results
  import opened Evidence

  // A decoded JSON value; booleans are not integers here.
  datatype Value = Int(n: int) | Bool(b: bool) | Text(s: string) | OtherValue

  type JsonObject = map<string, Value>

  function Get(record: JsonObject, name: string): Option<Value> { if name in record then Some(record[name]) else None }

  // ----- Encoders ----------------------------------------------------------------------------------------

  function Power256(n: nat): nat { if n == 0 then 1 else 256 * Power256(n - 1) }

  // Little-endian digits.
  function Little(n: nat, width: nat): (r: seq<Byte>)
    ensures |r| == width
  {
    if width == 0 then [] else [n % 256] + Little(n / 256, width - 1)
  }

  // _uint_bytes
  function UintBytes(v: Option<Value>, width: nat): Option<seq<Byte>> {
    if v.Some? && v.value.Int? && 0 <= v.value.n < Power256(width) then Some(Little(v.value.n, width)) else None
  }

  const HALF_WORD: int := 0x8000_0000_0000_0000

  // _int64_bytes: two's complement.
  function Int64Bytes(v: Option<Value>): Option<seq<Byte>> {
    if v.Some? && v.value.Int? && -HALF_WORD <= v.value.n < HALF_WORD then
      Some(Little(if v.value.n < 0 then v.value.n + WORD else v.value.n, 8))
    else None
  }

  predicate Ascii(s: string) { forall i | 0 <= i < |s| :: 0 < s[i] as int < 128 }

  function Codes(s: string): (r: seq<Byte>)
    requires Ascii(s)
    ensures |r| == |s| && forall i | 0 <= i < |s| :: r[i] == s[i] as int
  {
    seq(|s|, i requires 0 <= i < |s| => s[i] as int)
  }

  function Zeros(n: nat): (r: seq<Byte>)
    ensures |r| == n && forall i | 0 <= i < n :: r[i] == 0
  {
    seq(n, i requires 0 <= i < n => 0)
  }

  // _fixed_ascii: ASCII text, neither empty nor as long as the field, without NUL, padded with zeros.
  function FixedAscii(v: Option<Value>, width: nat): Option<seq<Byte>> {
    if v.Some? && v.value.Text? && Ascii(v.value.s) && 0 < |v.value.s| < width then
      Some(Codes(v.value.s) + Zeros(width - |v.value.s|))
    else None
  }

  function FlagBytes(v: Option<Value>): Option<seq<Byte>> {
    if v.Some? && v.value.Bool? then Some(Little(if v.value.b then 1 else 0, 4)) else None
  }

  datatype Kind = Unsigned(width: nat) | Signed | FixedText(width: nat) | Flag

  datatype Field = Field(name: string, kind: Kind)

  function Width(kind: Kind): nat {
    match kind
    case Unsigned(width) => width
    case Signed => 8
    case FixedText(width) => width
    case Flag => 4
  }

  function EncodeField(kind: Kind, v: Option<Value>): (r: Option<seq<Byte>>)
    ensures r.Some? ==> |r.value| == Width(kind)
  {
    match kind
    case Unsigned(width) => UintBytes(v, width)
    case Signed => Int64Bytes(v)
    case FixedText(width) => FixedAscii(v, width)
    case Flag => FlagBytes(v)
  }

  // ----- Each encoder is injective ---------------------------------------------------------------------------

  lemma {:induction false} LittleIsInjective(m: nat, n: nat, width: nat)
    requires m < Power256(width) && n < Power256(width) && Little(m, width) == Little(n, width)
    ensures m == n
  {
    if width > 0 {
      assert Little(m, width)[0] == Little(n, width)[0];
      assert Little(m, width)[1..] == Little(m / 256, width - 1) && Little(n, width)[1..] == Little(n / 256, width - 1);
      LittleIsInjective(m / 256, n / 256, width - 1);
    }
  }

  lemma WordIsPower256()
    ensures Power256(8) == WORD
  {
    assert Power256(4) == 0x1_0000_0000 by { assert Power256(2) == 65536; }
    assert Power256(6) == 65536 * Power256(4);
  }

  lemma TextIsPrefix(s: string, t: string, width: nat)
    requires Ascii(s) && Ascii(t) && |s| < width && |t| < width
    requires Codes(s) + Zeros(width - |s|) == Codes(t) + Zeros(width - |t|)
    ensures s == t
  {
    var a, b := Codes(s) + Zeros(width - |s|), Codes(t) + Zeros(width - |t|);
    assert a[|s|] == 0 && b[|t|] == 0;
    assert forall i | 0 <= i < |s| :: a[i] == s[i] as int;
    assert forall i | 0 <= i < |t| :: b[i] == t[i] as int;
    assert |s| == |t|;
  }

  lemma FieldIsInjective(kind: Kind, v: Option<Value>, w: Option<Value>)
    requires EncodeField(kind, v).Some? && EncodeField(kind, v) == EncodeField(kind, w)
    ensures v == w
  {
    hide Little, Power256, Ascii, Codes, Zeros;
    match kind
    case Unsigned(width) => LittleIsInjective(v.value.n, w.value.n, width);
    case Signed =>
      WordIsPower256();
      var m := if v.value.n < 0 then v.value.n + WORD else v.value.n;
      var n := if w.value.n < 0 then w.value.n + WORD else w.value.n;
      LittleIsInjective(m, n, 8);
    case FixedText(width) => TextIsPrefix(v.value.s, w.value.s, width);
    case Flag =>
      WordIsPower256();
      assert Power256(4) > 1 by { SmallPower(); }
      LittleIsInjective(if v.value.b then 1 else 0, if w.value.b then 1 else 0, 4);
  }

  lemma SmallPower()
    ensures Power256(4) > 1
  {
    assert Power256(2) == 65536;
  }

  // ----- The preimage --------------------------------------------------------------------------------------------

  const HEADER: seq<seq<Byte>> := [[1, 0], [0, 0], [1]]

  function NumberFields(): seq<string> {
    ["router_configuration_hash", "routing_request_hash", "routing_decision_hash", "risk_snapshot_hash",
     "risk_context_hash",
     "risk_decision_hash", "risk_journal_sequence", "oms_configuration_hash", "oms_command_hash",
     "oms_journal_sequence",
     "gateway_configuration_hash", "gateway_request_hash", "gateway_audit_sequence", "gateway_audit_hash",
     "gateway_outbound_sequence"]
  }

  function FlagFields(): seq<string> {
    ["paper_mode", "buy_only", "regular_hours_only", "fresh_pretrade_risk_required", "risk_approved",
     "oms_command_valid",
     "gateway_final_gate_accepted", "live_trading_compiled"]
  }

  function LeadingFields(): seq<Field> {
    [Field("symbol", FixedText(17)), Field("instrument_id_high", Unsigned(8)), Field("instrument_id_low", Unsigned(8)),
     Field("client_order_id", FixedText(33)), Field("price_ticks", Signed),
     Field("price_increment_currency_nanos", Unsigned(8)),
     Field("quantity_units", Unsigned(8))]
  }

  function Fields(names: seq<string>, kind: Kind): (r: seq<Field>)
    ensures |r| == |names| && forall i | 0 <= i < |r| :: r[i] == Field(names[i], kind)
  {
    seq(|names|, i requires 0 <= i < |names| => Field(names[i], kind))
  }

  // The hashed fields in their order.
  function Layout(): seq<Field> {
    LeadingFields() + Fields(NumberFields(), Unsigned(8)) + Fields(FlagFields(), Flag)
  }

  // The encoded fields, or nothing if one of them is missing or out of range.
  function Encode(layout: seq<Field>, record: JsonObject): (r: Option<seq<seq<Byte>>>)
    ensures r.Some? ==> |r.value| == |layout|
  {
    if layout == [] then Some([])
    else
      var last := layout[|layout| - 1];
      match (Encode(layout[..|layout| - 1], record), EncodeField(last.kind, Get(record, last.name)))
      case (Some(parts), Some(part)) => Some(parts + [part])
      case _ => None
  }

  predicate Supported(record: JsonObject) { Get(record, "schema_version") == Some(Text("1.0.0")) }

  // What _system_path_stable_hash hashes.
  function Preimage(record: JsonObject): Option<seq<Byte>> {
    if !Supported(record) then None
    else
      match Encode(Layout(), record)
      case None => None
      case Some(parts) => Some(Flatten(HEADER + parts))
  }

  lemma {:induction false} EncodedAt(layout: seq<Field>, record: JsonObject, i: nat)
    requires Encode(layout, record).Some? && i < |layout|
    ensures EncodeField(layout[i].kind, Get(record, layout[i].name)) == Some(Encode(layout, record).value[i])
  {
    hide EncodeField;
    if i < |layout| - 1 { EncodedAt(layout[..|layout| - 1], record, i); }
  }

  lemma {:induction false} FlattenJoins(a: seq<seq<Byte>>, b: seq<seq<Byte>>)
    ensures Flatten(a + b) == Flatten(a) + Flatten(b)
  {
    if b == [] {
      assert a + b == a;
    } else {
      FlattenJoins(a, b[..|b| - 1]);
      assert (a + b)[..|a + b| - 1] == a + b[..|b| - 1];
    }
  }

  ghost predicate Agree(layout: seq<Field>, r: JsonObject, s: JsonObject) {
    forall i | 0 <= i < |layout| :: Get(r, layout[i].name) == Get(s, layout[i].name)
  }

  // The last field's bytes end the encoding.
  lemma EncodingEnds(layout: seq<Field>, record: JsonObject)
    requires layout != [] && Encode(layout, record).Some?
    ensures var front, last := layout[..|layout| - 1], layout[|layout| - 1];
      && Encode(front, record).Some? && EncodeField(last.kind, Get(record, last.name)).Some?
      && Flatten(Encode(layout, record).value)
         == Flatten(Encode(front, record).value) + EncodeField(last.kind, Get(record, last.name)).value
  {
    hide EncodeField, Get;
    var front, last := layout[..|layout| - 1], layout[|layout| - 1];
    var parts, part := Encode(front, record).value, EncodeField(last.kind, Get(record, last.name)).value;
    assert Encode(layout, record).value == parts + [part];
    assert (parts + [part])[..|parts|] == parts;
  }

  lemma AgreeExtends(layout: seq<Field>, r: JsonObject, s: JsonObject)
    requires layout != [] && Agree(layout[..|layout| - 1], r, s)
    requires Get(r, layout[|layout| - 1].name) == Get(s, layout[|layout| - 1].name)
    ensures Agree(layout, r, s)
  {
    hide Get;
    forall i | 0 <= i < |layout| ensures Get(r, layout[i].name) == Get(s, layout[i].name) {
      if i < |layout| - 1 { assert layout[..|layout| - 1][i] == layout[i]; }
    }
  }

  lemma {:induction false} EncodingIsInjective(layout: seq<Field>, r: JsonObject, s: JsonObject)
    requires Encode(layout, r).Some? && Encode(layout, s).Some?
    requires Flatten(Encode(layout, r).value) == Flatten(Encode(layout, s).value)
    ensures Agree(layout, r, s)
  {
    if layout == [] {
      hide Encode, Flatten;
    } else {
      hide Encode, EncodeField, Get, Flatten, Agree;
      var front, last := layout[..|layout| - 1], layout[|layout| - 1];
      EncodingEnds(layout, r);
      EncodingEnds(layout, s);
      var x, y := EncodeField(last.kind, Get(r, last.name)).value, EncodeField(last.kind, Get(s, last.name)).value;
      SplitEnd(Flatten(Encode(front, r).value), x, Flatten(Encode(front, s).value), y);
      EncodingIsInjective(front, r, s);
      FieldIsInjective(last.kind, Get(r, last.name), Get(s, last.name));
      AgreeExtends(layout, r, s);
    }
  }

  lemma SplitEnd(a: seq<Byte>, x: seq<Byte>, b: seq<Byte>, y: seq<Byte>)
    requires a + x == b + y && |x| == |y|
    ensures a == b && x == y
  {
    assert |a| == |b|;
    assert a == (a + x)[..|a|] && b == (b + y)[..|b|];
    assert x == (a + x)[|a|..] && y == (b + y)[|b|..];
  }

  /** Records with the same preimage agree on every hashed field. */
  lemma PreimageIsInjective(r: JsonObject, s: JsonObject)
    requires Preimage(r).Some? && Preimage(r) == Preimage(s)
    ensures Agree(Layout(), r, s)
  {
    hide Encode, Layout, Flatten;
    var p, q := Encode(Layout(), r).value, Encode(Layout(), s).value;
    FlattenJoins(HEADER, p);
    FlattenJoins(HEADER, q);
    var header := Flatten(HEADER);
    assert (header + Flatten(p))[|header|..] == Flatten(p) && (header + Flatten(q))[|header|..] == Flatten(q);
    EncodingIsInjective(Layout(), r, s);
  }

  function TotalWidth(layout: seq<Field>): nat {
    if layout == [] then 0 else TotalWidth(layout[..|layout| - 1]) + Width(layout[|layout| - 1].kind)
  }

  lemma {:induction false} EncodedLength(layout: seq<Field>, record: JsonObject)
    requires Encode(layout, record).Some?
    ensures |Flatten(Encode(layout, record).value)| == TotalWidth(layout)
  {
    hide EncodeField, Get;
    if layout != [] {
      var front, last := layout[..|layout| - 1], layout[|layout| - 1];
      EncodedLength(front, record);
      var p, x := Encode(front, record).value, EncodeField(last.kind, Get(record, last.name)).value;
      assert (p + [x])[..|p|] == p;
    }
  }

  /** All preimages have one length, so hashes always compare strings of equal length. */
  lemma PreimagesHaveOneLength(r: JsonObject, s: JsonObject)
    requires Preimage(r).Some? && Preimage(s).Some?
    ensures |Preimage(r).value| == |Preimage(s).value|
  {
    hide Encode, Layout, Flatten, TotalWidth;
    FlattenJoins(HEADER, Encode(Layout(), r).value);
    FlattenJoins(HEADER, Encode(Layout(), s).value);
    EncodedLength(Layout(), r);
    EncodedLength(Layout(), s);
  }

  lemma FlattenOne(part: seq<Byte>)
    ensures Flatten([part]) == part
  {
    var one: seq<seq<Byte>> := [part];
    var none: seq<seq<Byte>> := one[..0];
    assert none == [] && Flatten(none) == [] && Flatten(one) == Flatten(none) + part;
  }

  lemma FlattenThree(a: seq<seq<Byte>>, x: seq<Byte>, b: seq<seq<Byte>>)
    ensures Flatten(a + [x] + b) == Flatten(a) + x + Flatten(b)
  {
    hide Flatten;
    FlattenJoins(a + [x], b);
    FlattenJoins(a, [x]);
    FlattenOne(x);
  }

  lemma SplitAt<T>(s: seq<T>, j: nat)
    requires j < |s|
    ensures s == s[..j] + [s[j]] + s[j + 1..]
  {
  }

  lemma FlattenAround(parts: seq<seq<Byte>>, j: nat)
    requires j < |parts|
    ensures Flatten(parts) == Flatten(parts[..j]) + parts[j] + Flatten(parts[j + 1..])
  {
    hide Flatten;
    SplitAt(parts, j);
    FlattenThree(parts[..j], parts[j], parts[j + 1..]);
  }

  /** Flipping one flag and nothing else always changes the fold. */
  lemma FlagFlipIsVisible(r: JsonObject, s: JsonObject, j: nat)
    requires Preimage(r).Some? && Preimage(s).Some? && j < |Layout()| && Layout()[j].kind.Flag?
    requires Get(r, Layout()[j].name) != Get(s, Layout()[j].name)
    requires forall i | 0 <= i < |Layout()| && i != j :: Get(r, Layout()[i].name) == Get(s, Layout()[i].name)
    ensures Fold(OFFSET, Preimage(r).value) != Fold(OFFSET, Preimage(s).value)
  {
    hide Encode, Layout, Flatten, Fold, Little, Get;
    var p, q := Encode(Layout(), r).value, Encode(Layout(), s).value;
    forall i | 0 <= i < |p| && i != j ensures p[i] == q[i] {
      EncodedAt(Layout(), r, i);
      EncodedAt(Layout(), s, i);
    }
    EncodedAt(Layout(), r, j);
    EncodedAt(Layout(), s, j);
    FlagBytesDiffer(Get(r, Layout()[j].name), Get(s, Layout()[j].name));
    assert p[..j] == q[..j] && p[j + 1..] == q[j + 1..];
    FlattenAround(p, j);
    FlattenAround(q, j);
    FlattenJoins(HEADER, p);
    FlattenJoins(HEADER, q);
    var before, after := Flatten(HEADER) + Flatten(p[..j]), Flatten(p[j + 1..]);
    assert Preimage(r).value == before + (p[j] + after) && Preimage(s).value == before + (q[j] + after);
    FirstByteDiffers(before, p[j], q[j], after);
  }

  lemma FlagBytesDiffer(v: Option<Value>, w: Option<Value>)
    requires FlagBytes(v).Some? && FlagBytes(w).Some? && v != w
    ensures FlagBytes(v).value[0] != FlagBytes(w).value[0] && FlagBytes(v).value[1..] == FlagBytes(w).value[1..]
  {
    assert Little(1, 4)[1..] == Little(0, 3) && Little(0, 4)[1..] == Little(0, 3);
  }

  lemma FirstByteDiffers(before: seq<Byte>, x: seq<Byte>, y: seq<Byte>, after: seq<Byte>)
    requires x != [] && |x| == |y| && x[0] != y[0] && x[1..] == y[1..]
    ensures Fold(OFFSET, before + (x + after)) != Fold(OFFSET, before + (y + after))
  {
    hide Fold;
    var a, b, k := before + (x + after), before + (y + after), |before|;
    assert a[..k] == before && b[..k] == before;
    assert a[k + 1..] == x[1..] + after && b[k + 1..] == y[1..] + after;
    OneByteIsVisible(a, b, k);
  }

  // ----- The hash, step by step ------------------------------------------------------------------------------------

  lemma {:induction false} EncodePrefix(layout: seq<Field>, record: JsonObject, n: nat)
    requires Encode(layout, record).Some? && n <= |layout|
    ensures Encode(layout[..n], record).Some?
  {
    hide EncodeField;
    if n < |layout| {
      var front := layout[..|layout| - 1];
      EncodePrefix(front, record, n);
      assert front[..n] == layout[..n];
    } else {
      assert layout[..n] == layout;
    }
  }

  // _system_path_stable_hash
  method SystemPathStableHash(record: JsonObject) returns (hash: Option<Word>)
    ensures hash == match Preimage(record) case None => None case Some(bytes) => Some(Finish(Fold(OFFSET, bytes)))
  {
    hide EncodeField, Layout, Flatten, Fold, Get;
    if Get(record, "schema_version") != Some(Text("1.0.0")) { return None; }
    var layout := Layout();
    var parts := HEADER;
    for i := 0 to |layout|
      invariant Encode(layout[..i], record).Some? && parts == HEADER + Encode(layout[..i], record).value
    {
      var part := EncodeField(layout[i].kind, Get(record, layout[i].name));
      assert layout[..i + 1][..i] == layout[..i];
      if part.None? {
        if Encode(layout, record).Some? { EncodePrefix(layout, record, i + 1); }
        return None;
      }
      parts := parts + [part.value];
    }
    assert layout[..|layout|] == layout;
    var value := Fnv64(parts);
    hash := Some(value);
  }
}
