// The adapter generator's one-pass bfloat16 serializer, and the oracle's reader of the same file.
module LoraAdapter {
  import opened Text
  import opened Safetensors
  import opened Bf16

  /** A named float tensor by its 32-bit patterns. */
  datatype Floats = Floats(name: string, bits: seq<word>, shape: seq<nat>)

  type Loaded = map<string, (seq<word>, seq<nat>)>

  function Bf16Bytes(bits: seq<word>): (b: Bytes)
    ensures |b| == 2 * |bits|
  {
    if bits == [] then []
    else
      var h := RoundToHalf(bits[|bits| - 1]);
      Bf16Bytes(bits[..|bits| - 1]) + [h % 256, h / 256]
  }

  function AsBf16(tensors: seq<Floats>): (ts: seq<Tensor>)
    ensures |ts| == |tensors|
    ensures forall n :: 0 <= n < |ts| ==> ts[n].name == tensors[n].name
  {
    seq(|tensors|, n requires 0 <= n < |tensors| =>
      Tensor(tensors[n].name, Bf16Bytes(tensors[n].bits), tensors[n].shape, "BF16"))
  }

  /** Header and data grow together; for a given encoder, the same layout as the two-pass writer's. */
  method WriteAdapter(json: Json, tensors: seq<Floats>) returns (file: Bytes)
    ensures file == FileOf(json, AsBf16(tensors))
  {
    hide PackLE, Bf16Bytes;
    var header: Header := map[];
    var blob: Bytes := [];
    ghost var all := AsBf16(tensors);
    for n := 0 to |tensors|
      invariant header == HeaderOf(all[..n]) && blob == Blob(all[..n])
    {
      BlobSnoc(all, n);
      var b := Bf16Bytes(tensors[n].bits);
      header := header[tensors[n].name := Entry("BF16", tensors[n].shape, |blob|, |blob| + |b|)];
      blob := blob + b;
    }
    assert all[..|tensors|] == all;
    var hj := json.encode(header);
    var pad := (8 - |hj| % 8) % 8;
    hj := hj + Spaces(pad);
    file := PackLE(|hj|, 8) + hj + blob;
  }

  // ----------------------------------------------------------------- reading

  /** Two bytes, or two 16-bit halves, as one number. */
  function Wide(lo: int, hi: int, unit: int): int { lo + unit * hi }

  function Halves(raw: Bytes): (ws: seq<word>)
    requires |raw| % 2 == 0
    ensures |ws| == |raw| / 2
  {
    seq(|raw| / 2, k requires 0 <= k < |raw| / 2 => Wide(raw[2 * k], raw[2 * k + 1], 256) * 0x1_0000)
  }

  function HalfFloats(raw: Bytes, half: nat -> word): (ws: seq<word>)
    requires |raw| % 2 == 0
    ensures |ws| == |raw| / 2
  {
    seq(|raw| / 2, k requires 0 <= k < |raw| / 2 => half(Wide(raw[2 * k], raw[2 * k + 1], 256)))
  }

  function FullFloats(raw: Bytes): (ws: seq<word>)
    requires |raw| % 4 == 0
    ensures |ws| == |raw| / 4
  {
    seq(|raw| / 4, k requires 0 <= k < |raw| / 4 =>
      Wide(Wide(raw[4 * k], raw[4 * k + 1], 256), Wide(raw[4 * k + 2], raw[4 * k + 3], 256), 0x1_0000))
  }

  /** One entry as floats; None for an unknown dtype, a ragged length or a shape that does not match. */
  function Decode(blob: Bytes, e: Entry, half: nat -> word): Option<(seq<word>, seq<nat>)>
  {
    var raw := Clip(blob, e.lo, e.hi);
    var ws :=
      if e.dtype == "BF16" && |raw| % 2 == 0 then Some(Halves(raw))
      else if e.dtype == "F16" && |raw| % 2 == 0 then Some(HalfFloats(raw, half))
      else if e.dtype == "F32" && |raw| % 4 == 0 then Some(FullFloats(raw))
      else None;
    if ws.Some? && |ws.value| == Numel(e.shape) then Some((ws.value, e.shape)) else None
  }

  ghost function DecodeName(json: Json, file: Bytes, name: string, half: nat -> word): Option<(seq<word>, seq<nat>)>
    requires ParseHeader(json, file).Some?
  {
    var (h, start) := ParseHeader(json, file).value;
    if name in h then Decode(Clip(file, start, |file|), h[name], half) else None
  }

  ghost predicate AllDecode(json: Json, file: Bytes, half: nat -> word)
    requires ParseHeader(json, file).Some?
  {
    forall name :: name in ParseHeader(json, file).value.0 ==> DecodeName(json, file, name, half).Some?
  }

  /** Everything but the metadata, decoded; None when the header or one entry does not decode. */
  ghost function LoadedOf(json: Json, file: Bytes, half: nat -> word): Option<Loaded>
  {
    if ParseHeader(json, file).None? || !AllDecode(json, file, half) then None
    else Some(map name | name in ParseHeader(json, file).value.0 :: name := DecodeName(json, file, name, half).value)
  }

  method LoadSafetensors(json: Json, file: Bytes, half: nat -> word) returns (out: Option<Loaded>)
    ensures out == LoadedOf(json, file, half)
  {
    hide UnpackLE, Decode, Clip, LoadedOf;
    if |file| < 8 { Unloaded(json, file, half); return None; }
    var size := UnpackLE(file[..8]);
    var parsed := json.decode(Clip(file, 8, 8 + size));
    if parsed.None? { Unloaded(json, file, half); return None; }
    var header, blob := parsed.value, Clip(file, 8 + size, |file|);
    ghost var h := header - {METADATA};
    assert ParseHeader(json, file) == Some((h, 8 + size));
    var loaded: Loaded := map[];
    var todo := header.Keys;
    while todo != {}
      invariant todo <= header.Keys
      invariant loaded.Keys == h.Keys - todo
      invariant forall name :: name in loaded ==> Some(loaded[name]) == DecodeName(json, file, name, half)
      decreases |todo|
    {
      var name :| name in todo;
      if name != METADATA {
        var d := Decode(blob, header[name], half);
        if d.None? {
          assert name in h;
          Unloaded(json, file, half);
          return None;
        }
        loaded := loaded[name := d.value];
      }
      todo := todo - {name};
    }
    AllLoaded(json, file, half, loaded);
    return Some(loaded);
  }

  lemma Unloaded(json: Json, file: Bytes, half: nat -> word)
    requires ParseHeader(json, file).None? || !AllDecode(json, file, half)
    ensures LoadedOf(json, file, half) == None
  {
  }

  lemma AllLoaded(json: Json, file: Bytes, half: nat -> word, loaded: Loaded)
    requires ParseHeader(json, file).Some? && loaded.Keys == ParseHeader(json, file).value.0.Keys
    requires forall name :: name in loaded ==> Some(loaded[name]) == DecodeName(json, file, name, half)
    ensures LoadedOf(json, file, half) == Some(loaded)
  {
    hide ParseHeader, DecodeName;
    var h := ParseHeader(json, file).value.0;
    forall name | name in h
      ensures DecodeName(json, file, name, half).Some?
    {
      assert name in loaded;
    }
    assert AllDecode(json, file, half);
    var m := map name | name in h :: name := DecodeName(json, file, name, half).value;
    assert LoadedOf(json, file, half) == Some(m);
    assert m == loaded;
  }

  // ------------------------------------------------------------- round trip

  function Rounded(bits: seq<word>): (r: seq<word>)
    ensures |r| == |bits|
  {
    seq(|bits|, k requires 0 <= k < |bits| => Round(bits[k]))
  }

  lemma {:induction false} BytesAt(bits: seq<word>, k: nat)
    requires k < |bits|
    ensures var b, h := Bf16Bytes(bits), RoundToHalf(bits[k]); b[2 * k] == h % 256 && b[2 * k + 1] == h / 256
    decreases |bits|
  {
    var l := |bits| - 1;
    if k < l { BytesAt(bits[..l], k); }
  }

  lemma HalvesOfBytes(bits: seq<word>)
    ensures Halves(Bf16Bytes(bits)) == Rounded(bits)
  {
    hide RoundToHalf, Round;
    var b := Bf16Bytes(bits);
    forall k | 0 <= k < |bits|
      ensures Halves(b)[k] == Round(bits[k])
    {
      BytesAt(bits, k);
      HalfIsRound(bits[k]);
      var h := RoundToHalf(bits[k]);
      assert h % 256 + 256 * (h / 256) == h;
    }
  }

  ghost predicate DistinctNames(tensors: seq<Floats>)
  {
    forall a, b :: 0 <= a < b < |tensors| ==> tensors[a].name != tensors[b].name
  }

  /** Reading what the generator wrote gives, for every tensor, its rounded floats and its shape. */
  lemma GeneratorOracleRoundTrip(json: Json, tensors: seq<Floats>, n: nat, half: nat -> word)
    requires json.Lawful() && Fits(json, AsBf16(tensors)) && n < |tensors| && DistinctNames(tensors)
    requires tensors[n].name != METADATA && |tensors[n].bits| == Numel(tensors[n].shape)
    ensures var file := FileOf(json, AsBf16(tensors));
            ParseHeader(json, file).Some?
            && DecodeName(json, file, tensors[n].name, half) == Some((Rounded(tensors[n].bits), tensors[n].shape))
  {
    hide PackLE, UnpackLE, HeaderOf, Blob, PaddedHeader, FileOf, ParseHeader, Bf16Bytes, Numel;
    var ts := AsBf16(tensors);
    var file, start := FileOf(json, ts), 8 + |PaddedHeader(json, HeaderOf(ts))|;
    ParseWritten(json, ts);
    HeaderEntries(ts, n);
    BlobSlice(ts, n);
    assert Clip(file, start, |file|) == Blob(ts);
    HalvesOfBytes(tensors[n].bits);
    var e := EntryAt(ts, n);
    assert Clip(Blob(ts), e.lo, e.hi) == Bf16Bytes(tensors[n].bits);
  }

  /** And nothing else: the loaded names are the written names. */
  lemma LoadedNames(json: Json, tensors: seq<Floats>)
    requires json.Lawful() && Fits(json, AsBf16(tensors))
    ensures var file := FileOf(json, AsBf16(tensors));
            ParseHeader(json, file).Some?
            && ParseHeader(json, file).value.0.Keys == (set t | t in tensors :: t.name) - {METADATA}
  {
    hide PackLE, UnpackLE, HeaderOf, Blob, PaddedHeader, FileOf, ParseHeader, Bf16Bytes, Fits;
    ParseWritten(json, AsBf16(tensors));
    HeaderNames(AsBf16(tensors));
    SameNames(tensors);
  }

  lemma SameNames(tensors: seq<Floats>)
    ensures (set t | t in AsBf16(tensors) :: t.name) == set t | t in tensors :: t.name
  {
    var ts := AsBf16(tensors);
    var written, given := set t | t in ts :: t.name, set t | t in tensors :: t.name;
    forall name | name in written
      ensures name in given
    {
      var n :| 0 <= n < |ts| && ts[n].name == name;
      assert tensors[n] in tensors;
    }
    forall name | name in given
      ensures name in written
    {
      var n :| 0 <= n < |tensors| && tensors[n].name == name;
      assert ts[n] in ts;
    }
  }

  /** An array's bit patterns are as many as its shape says, and no array is named like the metadata. */
  ghost predicate Arrays(tensors: seq<Floats>)
  {
    && DistinctNames(tensors)
    && forall n :: 0 <= n < |tensors| ==> tensors[n].name != METADATA && |tensors[n].bits| == Numel(tensors[n].shape)
  }

  /** Loading what the generator wrote: every name with its rounded floats and its shape, and nothing else. */
  lemma LoadWritten(json: Json, tensors: seq<Floats>, half: nat -> word)
    requires json.Lawful() && Fits(json, AsBf16(tensors)) && Arrays(tensors)
    ensures var out := LoadedOf(json, FileOf(json, AsBf16(tensors)), half);
            && out.Some? && out.value.Keys == (set t | t in tensors :: t.name)
            && forall n :: 0 <= n < |tensors| ==>
                 out.value[tensors[n].name] == (Rounded(tensors[n].bits), tensors[n].shape)
  {
    hide FileOf, ParseHeader, Fits, DecodeName, Rounded, Numel, AsBf16, Json.Lawful;
    var file := FileOf(json, AsBf16(tensors));
    LoadedNames(json, tensors);
    var names := set t | t in tensors :: t.name;
    assert METADATA !in names;
    forall n | 0 <= n < |tensors|
      ensures tensors[n].name in names
      ensures DecodeName(json, file, tensors[n].name, half) == Some((Rounded(tensors[n].bits), tensors[n].shape))
    {
      assert tensors[n] in tensors;
      GeneratorOracleRoundTrip(json, tensors, n, half);
    }
    forall name | name in names
      ensures DecodeName(json, file, name, half).Some?
    {
      var n :| 0 <= n < |tensors| && tensors[n].name == name;
    }
  }

  // ------------------------------------------------------------- foreign files

  /** The numbers in width bytes each, least significant first. */
  function Packed(ws: seq<nat>, width: nat): Bytes
  {
    if ws == [] then [] else Packed(ws[..|ws| - 1], width) + PackLE(ws[|ws| - 1], width)
  }

  lemma {:induction false} PackedPairs(ws: seq<nat>, k: nat)
    requires k < |ws| && ws[k] < 0x1_0000
    ensures var raw := Packed(ws, 2); |raw| == 2 * |ws| && Wide(raw[2 * k], raw[2 * k + 1], 256) == ws[k]
    decreases |ws|
  {
    hide PackLE;
    PackedLength(ws, 2);
    var l := |ws| - 1;
    PackedLength(ws[..l], 2);
    assert 2 * |ws| == 2 * l + 2;
    if k < l {
      PackedPairs(ws[..l], k);
    } else {
      var b := PackLE(ws[k], 2);
      assert Pow256(2) == 0x1_0000;
      UnpackPack(ws[k], 2);
      TwoBytes(b);
      assert Packed(ws, 2)[2 * k] == b[0] && Packed(ws, 2)[2 * k + 1] == b[1];
    }
  }

  lemma {:induction false} PackedQuads(ws: seq<nat>, k: nat)
    requires k < |ws| && ws[k] < 0x1_0000_0000
    ensures var raw := Packed(ws, 4);
      && |raw| == 4 * |ws|
      && Wide(Wide(raw[4 * k], raw[4 * k + 1], 256), Wide(raw[4 * k + 2], raw[4 * k + 3], 256), 0x1_0000) == ws[k]
    decreases |ws|
  {
    hide PackLE;
    PackedLength(ws, 4);
    var l := |ws| - 1;
    PackedLength(ws[..l], 4);
    assert 4 * |ws| == 4 * l + 4;
    if k < l {
      PackedQuads(ws[..l], k);
    } else {
      var b := PackLE(ws[k], 4);
      assert Pow256(4) == 0x1_0000_0000;
      UnpackPack(ws[k], 4);
      FourBytes(b);
      assert forall j :: 0 <= j < 4 ==> Packed(ws, 4)[4 * k + j] == b[j];
    }
  }

  lemma {:induction false} PackedLength(ws: seq<nat>, width: nat)
    ensures |Packed(ws, width)| == width * |ws|
  {
    if ws != [] {
      PackedLength(ws[..|ws| - 1], width);
      assert width * |ws| == width * (|ws| - 1) + width;
    }
  }

  /**
   * Little-endian data of any of the three types decodes to its numbers: words as they are, F16 widened, BF16
   * raised.
   */
  lemma DecodePacked(blob: Bytes, e: Entry, half: nat -> word, ws: seq<nat>)
    requires |ws| == Numel(e.shape) && e.dtype in {"F32", "F16", "BF16"}
    requires forall k :: 0 <= k < |ws| ==> ws[k] < if e.dtype == "F32" then 0x1_0000_0000 else 0x1_0000
    requires Clip(blob, e.lo, e.hi) == Packed(ws, if e.dtype == "F32" then 4 else 2)
    ensures var out := Decode(blob, e, half);
      && out.Some? && out.value.1 == e.shape && |out.value.0| == |ws|
      && forall k :: 0 <= k < |ws| ==>
           out.value.0[k] == if e.dtype == "F32" then ws[k] else if e.dtype == "F16" then half(ws[k]) else ws[k] * 65536
  {
    hide Clip, Numel, Packed, Wide;
    var raw := Clip(blob, e.lo, e.hi);
    PackedLength(ws, if e.dtype == "F32" then 4 else 2);
    forall k | 0 <= k < |ws|
      ensures e.dtype == "F32" ==>
        Wide(Wide(raw[4 * k], raw[4 * k + 1], 256), Wide(raw[4 * k + 2], raw[4 * k + 3], 256), 0x1_0000) == ws[k]
      ensures e.dtype != "F32" ==> Wide(raw[2 * k], raw[2 * k + 1], 256) == ws[k]
    {
      if e.dtype == "F32" { PackedQuads(ws, k); } else { PackedPairs(ws, k); }
    }
  }

  lemma TwoBytes(b: Bytes)
    requires |b| == 2
    ensures UnpackLE(b) == Wide(b[0], b[1], 256)
  {
    assert UnpackLE(b[1..]) == b[1] + 256 * UnpackLE(b[1..][1..]);
  }

  lemma FourBytes(b: Bytes)
    requires |b| == 4
    ensures UnpackLE(b) == Wide(Wide(b[0], b[1], 256), Wide(b[2], b[3], 256), 0x1_0000)
  {
    TwoBytes(b[2..]);
    assert b[1..][1..] == b[2..];
    assert UnpackLE(b[1..]) == b[1] + 256 * UnpackLE(b[2..]);
  }
}
