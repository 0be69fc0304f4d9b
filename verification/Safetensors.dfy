// The safetensors layout that two writers and two readers of the repository share: an 8-byte
// little-endian header length, a JSON header padded with spaces to a multiple of 8, and the tensor data.
module Safetensors {
  import opened Text
  import ModArith

  type byte = b: int | 0 <= b < 256
  type Bytes = seq<byte>

  const SPACE: byte := 32
  const METADATA: string := "__metadata__"

  datatype Entry = Entry(dtype: string, shape: seq<nat>, lo: nat, hi: nat)
  datatype Tensor = Tensor(name: string, data: Bytes, shape: seq<nat>, dtype: string)
  type Header = map<string, Entry>

  function Numel(shape: seq<nat>): nat
  {
    if shape == [] then 1 else shape[0] * Numel(shape[1..])
  }

  /** JSON as an invertible encoding of headers that ignores trailing spaces. */
  datatype Json = Json(encode: Header -> Bytes, decode: Bytes -> Option<Header>) {
    ghost predicate Lawful() { forall h: Header, pad: nat :: RoundTrips(h, pad) }

    ghost predicate RoundTrips(h: Header, pad: nat) { decode(encode(h) + Spaces(pad)) == Some(h) }
  }

  function Spaces(n: nat): (s: Bytes)
    ensures |s| == n
  {
    seq(n, k => SPACE)
  }

  // ---------------------------------------------------- little-endian numbers

  function PackLE(n: nat, width: nat): (b: Bytes)
    ensures |b| == width
  {
    if width == 0 then [] else [n % 256] + PackLE(n / 256, width - 1)
  }

  function UnpackLE(b: Bytes): nat
  {
    if b == [] then 0 else b[0] + 256 * UnpackLE(b[1..])
  }

  function Pow256(w: nat): (p: nat)
    ensures p > 0
  { if w == 0 then 1 else 256 * Pow256(w - 1)
  }

  lemma {:induction false} UnpackPack(n: nat, width: nat)
    requires n < Pow256(width)
    ensures UnpackLE(PackLE(n, width)) == n
    decreases width
  {
    if width > 0 {
      UnpackPack(n / 256, width - 1);
      assert PackLE(n, width)[1..] == PackLE(n / 256, width - 1);
    }
  }

  // ------------------------------------------------------------------ layout

  function Blob(tensors: seq<Tensor>): Bytes
  {
    if tensors == [] then [] else Blob(tensors[..|tensors| - 1]) + tensors[|tensors| - 1].data
  }

  /** The header as the writers grow it: each tensor at the end of the data before it; a later duplicate wins. */
  function HeaderOf(tensors: seq<Tensor>): Header
  {
    if tensors == [] then map[]
    else
      var front, t := tensors[..|tensors| - 1], tensors[|tensors| - 1];
      HeaderOf(front)[t.name := Entry(t.dtype, t.shape, |Blob(front)|, |Blob(front)| + |t.data|)]
  }

  function Padding(n: nat): nat { (8 - n % 8) % 8 }

  function PaddedHeader(json: Json, h: Header): Bytes
  {
    json.encode(h) + Spaces(Padding(|json.encode(h)|))
  }

  function FileOf(json: Json, tensors: seq<Tensor>): Bytes
  {
    var hj := PaddedHeader(json, HeaderOf(tensors));
    PackLE(|hj|, 8) + hj + Blob(tensors)
  }

  /** The padded header's length fits the 8 bytes before it; packing a longer one raises. */
  ghost predicate Fits(json: Json, tensors: seq<Tensor>)
  {
    |PaddedHeader(json, HeaderOf(tensors))| < 0x1_0000_0000_0000_0000
  }

  lemma BlobSnoc(tensors: seq<Tensor>, n: nat)
    requires n < |tensors|
    ensures Blob(tensors[..n + 1]) == Blob(tensors[..n]) + tensors[n].data
    ensures HeaderOf(tensors[..n + 1]) == HeaderOf(tensors[..n])[tensors[n].name :=
      Entry(tensors[n].dtype, tensors[n].shape, |Blob(tensors[..n])|, |Blob(tensors[..n])| + |tensors[n].data|)]
  {
    assert tensors[..n + 1][..n] == tensors[..n];
  }

  lemma NothingWritten(tensors: seq<Tensor>)
    requires tensors == []
    ensures Blob(tensors) == [] && HeaderOf(tensors) == map[]
  {
  }

  method WriteSafetensors(json: Json, tensors: seq<Tensor>) returns (file: Bytes)
    ensures file == FileOf(json, tensors)
  {
    hide PackLE, Blob, HeaderOf;
    assert Blob(tensors[..0]) == [] && HeaderOf(tensors[..0]) == map[] by { NothingWritten(tensors[..0]); }
    var header: Header := map[];
    var offset := 0;
    for n := 0 to |tensors|
      invariant header == HeaderOf(tensors[..n]) && offset == |Blob(tensors[..n])|
    {
      BlobSnoc(tensors, n);
      var t := tensors[n];
      header := header[t.name := Entry(t.dtype, t.shape, offset, offset + |t.data|)];
      offset := offset + |t.data|;
    }
    assert tensors[..|tensors|] == tensors;
    var hj := json.encode(header);
    hj := hj + Spaces((8 - |hj| % 8) % 8);
    file := PackLE(|hj|, 8);
    file := file + hj;
    for n := 0 to |tensors|
      invariant file == PackLE(|hj|, 8) + hj + Blob(tensors[..n])
    {
      BlobSnoc(tensors, n);
      file := file + tensors[n].data;
    }
  }

  // ----------------------------------------------------------------- reading

  /** file[lo:hi], cut off at the end of the file as a read is. */
  function Clip(file: Bytes, lo: nat, hi: nat): Bytes
  {
    if lo >= |file| || hi <= lo then [] else file[lo..if hi <= |file| then hi else |file|]
  }

  /** Header without its metadata key, and where the data starts; None when the file is too short or not JSON. */
  function ParseHeader(json: Json, file: Bytes): Option<(Header, nat)>
  {
    if |file| < 8 then None
    else
      var size := UnpackLE(file[..8]);
      match json.decode(Clip(file, 8, 8 + size))
      case None => None
      case Some(h) => Some((h - {METADATA}, 8 + size))
  }

  function ReadTensor(file: Bytes, dataOffset: nat, name: string, e: Entry): Tensor
  {
    Tensor(name, Clip(file, dataOffset + e.lo, dataOffset + e.hi), e.shape, e.dtype)
  }

  /** Entry of the n-th tensor at the moment it is written. */
  function EntryAt(tensors: seq<Tensor>, n: nat): Entry
    requires n < |tensors|
  {
    Entry(tensors[n].dtype, tensors[n].shape, |Blob(tensors[..n])|, |Blob(tensors[..n])| + |tensors[n].data|)
  }

  /** The header holds exactly the written names, each with its last tensor's entry. */
  lemma {:induction false} HeaderEntries(tensors: seq<Tensor>, n: nat)
    requires n < |tensors| && forall k :: n < k < |tensors| ==> tensors[k].name != tensors[n].name
    ensures tensors[n].name in HeaderOf(tensors) && HeaderOf(tensors)[tensors[n].name] == EntryAt(tensors, n)
    decreases |tensors|
  {
    var l := |tensors| - 1;
    if n < l {
      HeaderEntries(tensors[..l], n);
      assert tensors[..l][..n] == tensors[..n];
    }
  }

  lemma {:induction false} HeaderNames(tensors: seq<Tensor>)
    ensures HeaderOf(tensors).Keys == set t | t in tensors :: t.name
  {
    if tensors != [] {
      var l := |tensors| - 1;
      HeaderNames(tensors[..l]);
      assert tensors == tensors[..l] + [tensors[l]];
    }
  }

  lemma {:induction false} BlobSlice(tensors: seq<Tensor>, n: nat)
    requires n < |tensors|
    ensures |Blob(tensors[..n])| + |tensors[n].data| <= |Blob(tensors)|
    ensures Blob(tensors)[|Blob(tensors[..n])|..|Blob(tensors[..n])| + |tensors[n].data|] == tensors[n].data
    decreases |tensors|
  {
    var l := |tensors| - 1;
    if n < l {
      BlobSlice(tensors[..l], n);
      assert tensors[..l][..n] == tensors[..n];
    }
  }

  /** The data starts 8-aligned, right after the header, and parsing gives the header back. */
  lemma ParseWritten(json: Json, tensors: seq<Tensor>)
    requires json.Lawful() && Fits(json, tensors)
    ensures var start := 8 + |PaddedHeader(json, HeaderOf(tensors))|;
            && start % 8 == 0
            && ParseHeader(json, FileOf(json, tensors)) == Some((HeaderOf(tensors) - {METADATA}, start))
            && start <= |FileOf(json, tensors)| && FileOf(json, tensors)[start..] == Blob(tensors)
  {
    hide PackLE, UnpackLE, Pow256, HeaderOf, Blob;
    var h := HeaderOf(tensors);
    var hj := PaddedHeader(json, h);
    var file := FileOf(json, tensors);
    assert json.RoundTrips(h, Padding(|json.encode(h)|));
    LengthFits(|hj|);
    UnpackPack(|hj|, 8);
    assert file[..8] == PackLE(|hj|, 8);
    assert file[8..8 + |hj|] == hj;
    assert file[8 + |hj|..] == Blob(tensors);
  }

  lemma LengthFits(n: nat)
    requires n < 0x1_0000_0000_0000_0000
    ensures n < Pow256(8)
  {
    assert Pow256(4) == 0x1_0000_0000;
  }

  /** Entries are contiguous from 0, in order, and end where the data ends. */
  lemma OffsetsCover(tensors: seq<Tensor>, n: nat)
    requires n < |tensors|
    ensures EntryAt(tensors, n).lo == (if n == 0 then 0 else EntryAt(tensors, n - 1).hi)
    ensures n == |tensors| - 1 ==> EntryAt(tensors, n).hi == |Blob(tensors)|
  {
    if n > 0 { BlobSnoc(tensors, n - 1); }
    BlobSnoc(tensors, n);
    assert tensors[..|tensors|] == tensors;
  }

  /** Reading the n-th name back. */
  function ReadName(json: Json, file: Bytes, name: string): Option<Tensor>
  {
    match ParseHeader(json, file)
    case None => None
    case Some((h, start)) => if name in h then Some(ReadTensor(file, start, name, h[name])) else None
  }

  /**
   * A written tensor reads back, bytes, shape and dtype, exactly when it is not named like the metadata
   * and every later tensor of the same name equals it.
   */
  lemma ReadBack(json: Json, tensors: seq<Tensor>, n: nat)
    requires json.Lawful() && Fits(json, tensors) && n < |tensors|
    ensures ReadName(json, FileOf(json, tensors), tensors[n].name) == Some(tensors[n])
       <==> tensors[n].name != METADATA && tensors[LastNamed(tensors, n)] == tensors[n]
  {
    hide PackLE, UnpackLE, HeaderOf, Blob, PaddedHeader, FileOf, ParseHeader;
    var k := LastNamed(tensors, n);
    ParseWritten(json, tensors);
    HeaderEntries(tensors, k);
    BlobSlice(tensors, k);
    var file, start := FileOf(json, tensors), 8 + |PaddedHeader(json, HeaderOf(tensors))|;
    var e := EntryAt(tensors, k);
    ClipInData(file, start, e.lo, e.hi);
    assert ReadTensor(file, start, tensors[k].name, e) == tensors[k];
    assert tensors[k].name != METADATA ==> ReadName(json, file, tensors[k].name) == Some(tensors[k]);
  }

  lemma ClipInData(file: Bytes, start: nat, lo: nat, hi: nat)
    requires start <= |file| && lo <= hi <= |file| - start
    ensures Clip(file, start + lo, start + hi) == file[start..][lo..hi]
  {
  }

  /** The last position that carries the name of position n. */
  function LastNamed(tensors: seq<Tensor>, n: nat): (k: nat)
    requires n < |tensors|
    ensures n <= k < |tensors| && tensors[k].name == tensors[n].name
    ensures forall j :: k < j < |tensors| ==> tensors[j].name != tensors[n].name
    decreases |tensors|
  {
    var l := |tensors| - 1;
    if tensors[l].name == tensors[n].name then l else LastNamed(tensors[..l], n)
  }

  /** Nothing but the written names is in the file. */
  lemma OnlyWrittenNames(json: Json, tensors: seq<Tensor>, name: string)
    requires json.Lawful() && Fits(json, tensors)
    ensures ReadName(json, FileOf(json, tensors), name).Some?
       <==> name != METADATA && exists n :: 0 <= n < |tensors| && tensors[n].name == name
  {
    hide PackLE, UnpackLE, HeaderOf, Blob, PaddedHeader, FileOf, ParseHeader;
    ParseWritten(json, tensors);
    HeaderNames(tensors);
  }

  // --------------------------------------------------------------- byte by byte

  /** Byte k of a packed number is its k-th base-256 digit, least significant first. */
  lemma {:induction false} PackedDigit(n: nat, width: nat, k: nat)
    requires k < width
    ensures PackLE(n, width)[k] == n / Pow256(k) % 256
    decreases width
  {
    if k == 0 {
      assert Pow256(0) == 1;
    } else {
      PackedDigit(n / 256, width - 1, k - 1);
      DivideTwice(n, 256, Pow256(k - 1));
    }
  }

  lemma DivideTwice(n: nat, a: nat, b: nat)
    requires a > 0 && b > 0
    ensures a * b > 0 && n / a / b == n / (a * b)
  {
    var q, r := n / a, n % a;
    var p, s := q / b, q % b;
    assert n == q * a + r && q == p * b + s;
    assert n == p * (a * b) + (s * a + r) by {
      assert (p * b + s) * a == p * (b * a) + s * a;
      assert p * (b * a) == p * (a * b);
    }
    Small(s, r, a, b);
    ModArith.ModUnique(n, a * b, p, s * a + r);
  }

  lemma Small(s: nat, r: nat, a: nat, b: nat)
    requires s < b && r < a
    ensures 0 <= s * a + r < a * b && a * b > 0
  {
    assert s * a <= (b - 1) * a;
    assert (b - 1) * a + a == a * b;
  }

  /** A file: the header's length, its text, fewer than eight spaces up to a multiple of 8, and the data. */
  ghost predicate Laid(file: Bytes, text: Bytes, pad: nat, data: Bytes)
  {
    && pad < 8 && (|text| + pad) % 8 == 0 && |file| == 8 + |text| + pad + |data|
    && (forall k :: 0 <= k < 8 ==> file[k] == (|text| + pad) / Pow256(k) % 256)
    && (forall k :: 0 <= k < |text| ==> file[8 + k] == text[k])
    && (forall k :: 8 + |text| <= k < 8 + |text| + pad ==> file[k] == 32)
    && file[8 + |text| + pad..] == data
  }

  lemma Laying(head: Bytes, text: Bytes, pad: nat, data: Bytes)
    requires |head| == 8 && pad < 8 && (|text| + pad) % 8 == 0
    requires forall k :: 0 <= k < 8 ==> head[k] == (|text| + pad) / Pow256(k) % 256
    ensures Laid(head + (text + Spaces(pad)) + data, text, pad, data)
  {
    hide Pow256;
    var file := head + (text + Spaces(pad)) + data;
    assert forall k :: 0 <= k < 8 ==> file[k] == head[k];
  }

  lemma FileLaid(json: Json, tensors: seq<Tensor>)
    ensures exists pad :: Laid(FileOf(json, tensors), json.encode(HeaderOf(tensors)), pad, Blob(tensors))
  {
    hide PackLE, HeaderOf, Blob, Pow256, Laid;
    var text := json.encode(HeaderOf(tensors));
    var pad := Padding(|text|);
    forall k | 0 <= k < 8
      ensures PackLE(|text| + pad, 8)[k] == (|text| + pad) / Pow256(k) % 256
    {
      PackedDigit(|text| + pad, 8, k);
    }
    Laying(PackLE(|text| + pad, 8), text, pad, Blob(tensors));
    assert Laid(FileOf(json, tensors), text, pad, Blob(tensors));
  }
}
