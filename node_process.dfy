/** The preview frame decode in `load_texture`: a big-endian event type, a
    big-endian image type and the image bytes, behind `functools.lru_cache`
    (128 entries, least recently used evicted first, exceptions not cached).
    The temporary file, the Blender image load and the GPU texture are
    foreign; a loaded texture is a fresh identity carrying its header. */
module NodeProcess {
  import opened Wrappers

  datatype Mime = Png | Jpeg

  /** What the frame asks the loader to load: a file suffix and the bytes. */
  datatype Header = Header(mime: Mime, payload: seq<byte>)

  /** Event type 1 is a preview image; image type 2 is PNG. */
  const PreviewEvent: nat := 1
  const PngType: nat := 2

  /** `struct.unpack(">I", data[:4])` and `data[4:8]`, then the suffix choice;
      `None` is the early `return` that yields no texture. */
  function DecodeHeader(data: seq<byte>): (r: Result<Option<Header>>)
    ensures r.Raise? ==> r.error == StructError
    ensures r.Ok? && r.value.Some? ==> |data| >= 8 && r.value.value.payload == data[8..]
  {
    if data == [] then Ok(None)
    else if |data| < 4 then Raise(StructError)
    else if BigEndian(data[..4]) != PreviewEvent then Ok(None)
    else if |data| < 8 then Raise(StructError)
    else
      var mime := if BigEndian(data[4..8]) == PngType then Png else Jpeg;
      Ok(Some(Header(mime, data[8..])))
  }

  /** The four bytes `struct.pack(">I", n)` writes, for the small type codes. */
  function Word(n: byte): seq<byte> {
    [0, 0, 0, n]
  }

  /** A preview frame as the server writes it: event 1, image type 2 for PNG
      and 1 for JPEG, then the image. */
  function EncodeFrame(h: Header): seq<byte> {
    Word(1) + Word(if h.mime == Png then 2 else 1) + h.payload
  }

  lemma BigEndianWord(n: byte)
    ensures BigEndian(Word(n)) == n
  {
    var z1: seq<byte> := [0];
    var z2: seq<byte> := [0, 0];
    var z3: seq<byte> := [0, 0, 0];
    assert BigEndian(z1) == 0 by { assert z1[..0] == []; }
    assert BigEndian(z2) == 0 by { assert z2[..1] == z1; }
    assert BigEndian(z3) == 0 by { assert z3[..2] == z2; }
    assert Word(n)[..3] == z3;
  }

  /** Decoding a frame the server wrote gives back its header. */
  lemma DecodeEncodeFrame(h: Header)
    ensures DecodeHeader(EncodeFrame(h)) == Ok(Some(h))
  {
    var code: byte := if h.mime == Png then 2 else 1;
    var f := EncodeFrame(h);
    assert f[..4] == Word(1);
    assert f[4..8] == Word(code);
    assert f[8..] == h.payload;
    BigEndianWord(1);
    BigEndianWord(code);
  }

  /** Every outcome of the decode, by the input's length and its two words:
      empty input and any event type other than 1 give no texture, a
      non-empty input too short for a word raises, and image type 2 is the
      only one that selects PNG. */
  lemma DecodeHeaderCases(data: seq<byte>)
    ensures data == [] ==> DecodeHeader(data) == Ok(None)
    ensures 0 < |data| < 4 ==> DecodeHeader(data) == Raise(StructError)
    ensures |data| >= 4 && BigEndian(data[..4]) != 1 ==> DecodeHeader(data) == Ok(None)
    ensures |data| >= 4 && BigEndian(data[..4]) == 1 && |data| < 8
            ==> DecodeHeader(data) == Raise(StructError)
    ensures |data| >= 8 && BigEndian(data[..4]) == 1
            ==> DecodeHeader(data).Ok? && DecodeHeader(data).value.Some?
    ensures DecodeHeader(data).Ok? && DecodeHeader(data).value.Some?
            ==> (DecodeHeader(data).value.value.mime == Png <==> BigEndian(data[4..8]) == 2)
  {
  }

  /** A texture made by the loader: its own identity and what it was made from. */
  datatype Texture = Texture(id: nat, header: Header)

  /** One uncached `load_texture` call; `loads` is whether Blender accepts
      the image bytes (a failed `images.load` raises). */
  function LoadTexture(data: seq<byte>, id: nat, loads: bool): (r: Result<Option<Texture>>)
    ensures r.Ok? ==> DecodeHeader(data).Ok? && HeaderOf(r.value) == DecodeHeader(data).value
    ensures DecodeHeader(data).Raise? ==> r == Raise(DecodeHeader(data).error)
    ensures DecodeHeader(data).Ok? && DecodeHeader(data).value.Some? ==> (r.Raise? <==> !loads)
    ensures r.Ok? && r.value.Some? ==> r.value.value.id == id
  {
    match DecodeHeader(data)
    case Raise(e) => Raise(e)
    case Ok(None) => Ok(None)
    case Ok(Some(h)) => if loads then Ok(Some(Texture(id, h))) else Raise(RuntimeError)
  }

  function HeaderOf(t: Option<Texture>): Option<Header> {
    match t
    case None => None
    case Some(tex) => Some(tex.header)
  }

  const MaxSize: nat := 128

  datatype Entry = Entry(key: seq<byte>, value: Option<Texture>)

  /** The cache: entries from least to most recently used, and the identity
      the next loaded texture gets. */
  datatype Cache = Cache(entries: seq<Entry>, nextId: nat)

  /** At most 128 entries with distinct keys; every cached value is what
      decoding its key gives, and every cached texture is older than `nextId`. */
  ghost predicate Coherent(c: Cache) {
    && |c.entries| <= MaxSize
    && (forall i, j :: 0 <= i < j < |c.entries| ==> c.entries[i].key != c.entries[j].key)
    && (forall i :: 0 <= i < |c.entries| ==> DecodeHeader(c.entries[i].key) == Ok(HeaderOf(c.entries[i].value)))
    && (forall i :: 0 <= i < |c.entries| && c.entries[i].value.Some? ==> c.entries[i].value.value.id < c.nextId)
  }

  function Find(entries: seq<Entry>, key: seq<byte>): (r: Option<nat>)
    ensures r.Some? ==> r.value < |entries| && entries[r.value].key == key
    ensures r.None? ==> forall i :: 0 <= i < |entries| ==> entries[i].key != key
  {
    if entries == [] then None
    else if entries[|entries| - 1].key == key then Some(|entries| - 1)
    else Find(entries[..|entries| - 1], key)
  }

  function Empty(): Cache {
    Cache([], 0)
  }

  /** A call through `lru_cache`: a hit moves the entry to the most recently
      used end and returns its value without decoding; a miss decodes, and
      unless that raises, stores the result, dropping the least recently used
      entry when 128 are stored. */
  function Call(c: Cache, data: seq<byte>, loads: bool): (r: (Cache, Result<Option<Texture>>))
    ensures r.1.Raise? ==> r.0 == c
    ensures |c.entries| <= MaxSize ==> |r.0.entries| <= MaxSize
    ensures r.1.Ok? ==> exists k :: 0 <= k < |r.0.entries| && r.0.entries[k] == Entry(data, r.1.value)
  {
    match Find(c.entries, data)
    case Some(i) =>
      var e := c.entries[i];
      var entries := c.entries[..i] + c.entries[i + 1..] + [e];
      assert entries[|entries| - 1] == e && e.key == data;
      (Cache(entries, c.nextId), Ok(e.value))
    case None =>
      match LoadTexture(data, c.nextId, loads)
      case Raise(err) => (c, Raise(err))
      case Ok(v) =>
        var kept := if |c.entries| >= MaxSize then c.entries[1..] else c.entries;
        var entries := kept + [Entry(data, v)];
        assert entries[|kept|] == Entry(data, v);
        (Cache(entries, if v.Some? then c.nextId + 1 else c.nextId), Ok(v))
  }

  /** A hit only reorders the entries. */
  lemma HitCoherent(c: Cache, data: seq<byte>, i: nat)
    requires Coherent(c) && Find(c.entries, data) == Some(i)
    ensures Coherent(Cache(c.entries[..i] + c.entries[i + 1..] + [c.entries[i]], c.nextId))
  {
    var es := c.entries[..i] + c.entries[i + 1..] + [c.entries[i]];
    MovedEntries(c.entries, i);
    forall k, m | 0 <= k < m < |es|
      ensures es[k].key != es[m].key
    {
      assert Moved(k, i, |es|) != Moved(m, i, |es|);
    }
    forall k | 0 <= k < |es|
      ensures DecodeHeader(es[k].key) == Ok(HeaderOf(es[k].value))
      ensures es[k].value.Some? ==> es[k].value.value.id < c.nextId
    {
      assert es[k] == c.entries[Moved(k, i, |es|)];
    }
  }

  /** Moving the entry at `i` to the end puts the entry from `Moved(k, i, n)`
      at `k`. */
  lemma MovedEntries(entries: seq<Entry>, i: nat)
    requires i < |entries|
    ensures var es := entries[..i] + entries[i + 1..] + [entries[i]];
      && |es| == |entries|
      && forall k :: 0 <= k < |es| ==> es[k] == entries[Moved(k, i, |es|)]
  {
  }

  /** Where the entry now at `k` was before the entry at `i` moved to the end. */
  function Moved(k: nat, i: nat, n: nat): nat {
    if k < i then k else if k < n - 1 then k + 1 else i
  }

  /** A miss that does not raise appends its entry after at most one eviction. */
  lemma MissCoherent(c: Cache, data: seq<byte>, v: Option<Texture>)
    requires Coherent(c) && Find(c.entries, data).None?
    requires DecodeHeader(data) == Ok(HeaderOf(v))
    requires v.Some? ==> v.value.id == c.nextId
    ensures var kept := if |c.entries| >= MaxSize then c.entries[1..] else c.entries;
            Coherent(Cache(kept + [Entry(data, v)], if v.Some? then c.nextId + 1 else c.nextId))
  {
    var off := if |c.entries| >= MaxSize then 1 else 0;
    var kept := c.entries[off..];
    assert kept == if |c.entries| >= MaxSize then c.entries[1..] else c.entries;
    var es := kept + [Entry(data, v)];
    var next := if v.Some? then c.nextId + 1 else c.nextId;
    forall k | 0 <= k < |kept|
      ensures es[k] == c.entries[k + off]
    {
    }
    forall k, m | 0 <= k < m < |es|
      ensures es[k].key != es[m].key
    {
      if m < |kept| {
        assert es[k] == c.entries[k + off] && es[m] == c.entries[m + off];
      } else {
        assert es[k] == c.entries[k + off] && es[m].key == data;
      }
    }
    forall k | 0 <= k < |es|
      ensures DecodeHeader(es[k].key) == Ok(HeaderOf(es[k].value))
      ensures es[k].value.Some? ==> es[k].value.value.id < next
    {
      if k < |kept| {
        assert es[k] == c.entries[k + off];
      }
    }
  }

  /** Calls keep the cache coherent, and what a call returns is always what
      decoding the input gives: the cache never changes the answer. A call
      that raises leaves the cache as it was. */
  lemma CallCoherent(c: Cache, data: seq<byte>, loads: bool)
    requires Coherent(c)
    ensures Coherent(Call(c, data, loads).0)
    ensures Call(c, data, loads).1.Ok? ==>
              DecodeHeader(data) == Ok(HeaderOf(Call(c, data, loads).1.value))
    ensures Call(c, data, loads).1.Raise? ==> Call(c, data, loads).0 == c
  {
    match Find(c.entries, data)
    case Some(i) =>
      HitCoherent(c, data, i);
      var e := c.entries[i];
      assert Call(c, data, loads).1 == Ok(e.value);
      assert DecodeHeader(e.key) == Ok(HeaderOf(e.value));
    case None =>
      var r := LoadTexture(data, c.nextId, loads);
      if r.Ok? {
        MissCoherent(c, data, r.value);
      }
  }

  /** A successful call followed by a call on the same bytes hits: it returns
      the very same texture (same identity) and loads nothing, whatever the
      loader would now do. */
  lemma RepeatedCallHits(c: Cache, data: seq<byte>, loads: bool, loadsAgain: bool)
    requires Coherent(c)
    requires Call(c, data, loads).1.Ok?
    ensures Call(Call(c, data, loads).0, data, loadsAgain).1 == Call(c, data, loads).1
    ensures Call(Call(c, data, loads).0, data, loadsAgain).0.nextId == Call(c, data, loads).0.nextId
  {
    var c1 := Call(c, data, loads).0;
    var es := c1.entries;
    assert es[|es| - 1].key == data;
    assert Find(es, data) == Some(|es| - 1);
  }

  /** A miss on a full cache evicts exactly the least recently used entry. */
  lemma MissEvictsOldest(c: Cache, data: seq<byte>, loads: bool)
    requires Coherent(c) && |c.entries| == MaxSize
    requires Find(c.entries, data).None? && Call(c, data, loads).1.Ok?
    ensures Call(c, data, loads).0.entries
         == c.entries[1..] + [Entry(data, Call(c, data, loads).1.value)]
  {
  }
}
