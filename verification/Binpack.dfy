/** The binary market file: a 64-byte header, 16 bytes per symbol name, then the feature and the price
    block. A stored number is the 32-bit pattern of a float, little end first. */
module Binpack {
  import opened Prelude

  type Byte = b: int | 0 <= b < 0x100

  type Word = w: int | 0 <= w < 0x1_0000_0000

  type File = seq<Byte>

  const MAGIC: seq<Byte> := [77, 75, 84, 68]
  const PRICE_FEATURES := 5
  const HEADER_SIZE := 64
  const SYM_NAME_LEN := 16
  const MAX_SYMBOLS := 128
  const FEATURES_PER_SYM := 16

  // ---------------------------------------------------------------- numbers

  function Low(w: nat): Byte { w % 0x100 }

  function Rest(w: nat): nat { w / 0x100 }

  lemma Parts(w: nat)
    ensures w == Low(w) + 0x100 * Rest(w)
  {
  }

  function Pack(w: Word): (r: seq<Byte>)
    ensures |r| == 4
  {
    var a := Rest(w);
    var b := Rest(a);
    Parts(w);
    Parts(a);
    Parts(b);
    [Low(w), Low(a), Low(b), Rest(b)]
  }

  function WordAt(file: File, at: nat): Word
    requires at + 4 <= |file|
  {
    (file[at] as int) + 0x100 * (file[at + 1] as int) + 0x1_0000 * (file[at + 2] as int)
    + 0x100_0000 * (file[at + 3] as int)
  }

  lemma PackedWord(w: Word)
    ensures WordAt(Pack(w), 0) == w
  {
    Parts(w);
    Parts(Rest(w));
    Parts(Rest(Rest(w)));
    hide Low, Rest;
  }

  function Bytes(ws: seq<Word>): (r: File)
    ensures |r| == 4 * |ws|
  {
    if ws == [] then [] else Bytes(ws[..|ws| - 1]) + Pack(ws[|ws| - 1])
  }

  lemma {:induction false} BytesOfCat(a: seq<Word>, b: seq<Word>)
    ensures Bytes(a + b) == Bytes(a) + Bytes(b)
  {
    if b == [] {
      assert a + b == a;
    } else {
      BytesOfCat(a, b[..|b| - 1]);
      assert (a + b)[..|a + b| - 1] == a + b[..|b| - 1];
    }
  }

  lemma {:induction false} BytesAt(ws: seq<Word>, i: nat)
    requires i < |ws|
    ensures WordAt(Bytes(ws), 4 * i) == ws[i]
  {
    if i < |ws| - 1 {
      BytesAt(ws[..|ws| - 1], i);
    } else {
      PackedWord(ws[i]);
    }
    hide Pack;
  }

  /** Reading no words is possible anywhere, even past the end. */
  predicate Readable(file: File, at: nat, count: nat) { count == 0 || at + 4 * count <= |file| }

  /** `count` consecutive words from an offset. */
  function Unpack(file: File, at: nat, count: nat): (r: seq<Word>)
    requires Readable(file, at, count)
    ensures |r| == count
  {
    seq(count, i requires 0 <= i < count => WordAt(file, at + 4 * i))
  }

  predicate Holds(file: File, at: nat, part: File) { at + |part| <= |file| && file[at..at + |part|] == part }

  lemma Fits(file: File, at: nat, part: File)
    requires Holds(file, at, part)
    ensures at + |part| <= |file|
  {
  }

  /** Words written at an offset are read back from it. */
  lemma UnpackBytes(file: File, at: nat, ws: seq<Word>)
    requires Holds(file, at, Bytes(ws))
    ensures at + 4 * |ws| <= |file| && Unpack(file, at, |ws|) == ws
  {
    hide Holds, WordAt, Bytes;
    Fits(file, at, Bytes(ws));
    var read := Unpack(file, at, |ws|);
    forall i | 0 <= i < |ws|
      ensures read[i] == ws[i]
    {
      UnpackAt(file, at, ws, i);
    }
  }

  lemma UnpackAt(file: File, at: nat, ws: seq<Word>, i: nat)
    requires Holds(file, at, Bytes(ws)) && i < |ws|
    ensures at + 4 * i + 4 <= |file| && WordAt(file, at + 4 * i) == ws[i]
  {
    hide *;
    BytesAt(ws, i);
    SameWord(file, at, Bytes(ws), 4 * i);
  }

  lemma SameWord(file: File, at: nat, part: File, j: nat)
    requires Holds(file, at, part) && j + 4 <= |part|
    ensures at + j + 4 <= |file| && WordAt(file, at + j) == WordAt(part, j)
  {
    assert part[j] == file[at + j] && part[j + 1] == file[at + j + 1];
    assert part[j + 2] == file[at + j + 2] && part[j + 3] == file[at + j + 3];
  }

  // ---------------------------------------------------------------- blocks

  type Block = seq<seq<seq<Word>>>

  /** Enough bars and symbols, and every cell exactly as wide as declared; without symbols nothing is
      looked at. */
  predicate Shaped(data: Block, nt: nat, ns: nat, per: nat): (b: bool)
    ensures b ==> Reaches(data, nt, ns)
  {
    ns == 0 || (|data| >= nt && forall t :: 0 <= t < nt ==> RowShaped(data[t], ns, per))
  }

  predicate RowShaped(row: seq<seq<Word>>, ns: nat, per: nat): (b: bool)
    ensures b ==> |row| >= ns
  {
    |row| >= ns && forall s :: 0 <= s < ns ==> |row[s]| == per
  }

  function RowWords(row: seq<seq<Word>>, ns: nat): seq<Word>
    requires ns <= |row|
  {
    if ns == 0 then [] else RowWords(row, ns - 1) + row[ns - 1]
  }

  predicate Reaches(data: Block, nt: nat, ns: nat) {
    ns == 0 || (nt <= |data| && forall t :: 0 <= t < nt ==> ns <= |data[t]|)
  }

  /** The cells of the first `nt` bars, in file order. */
  function Words(data: Block, nt: nat, ns: nat): seq<Word>
    requires Reaches(data, nt, ns)
  {
    if nt == 0 || ns == 0 then [] else Words(data, nt - 1, ns) + RowWords(data[nt - 1], ns)
  }

  function Product(a: nat, b: nat): nat { a * b }

  lemma ProductNext(a: nat, b: nat)
    ensures Product(a + 1, b) == Product(a, b) + b
  {
  }

  lemma ProductZero(a: nat)
    ensures Product(0, a) == 0 == Product(a, 0)
  {
  }

  lemma ProductMono(a: nat, b: nat, k: nat)
    requires a <= b
    ensures Product(a, k) <= Product(b, k)
  {
  }

  lemma {:induction false} RowWordsAt(row: seq<seq<Word>>, ns: nat, per: nat, s: nat)
    requires RowShaped(row, ns, per)
    ensures |RowWords(row, ns)| == Product(ns, per)
    ensures s < ns ==> Product(s, per) + per <= Product(ns, per)
                       && RowWords(row, ns)[Product(s, per)..Product(s, per) + per] == row[s]
  {
    if ns > 0 {
      RowWordsAt(row, ns - 1, per, s);
      ProductNext(ns - 1, per);
    }
    hide Product;
  }

  /** Cell `(t, s)` of a block starts at word `(t * ns + s) * per`. */
  lemma {:induction false} WordsAt(data: Block, nt: nat, ns: nat, per: nat, t: nat, s: nat)
    requires Shaped(data, nt, ns, per) && s < ns
    ensures |Words(data, nt, ns)| == Product(nt, Product(ns, per))
    ensures t < nt ==>
              && Product(t, Product(ns, per)) + Product(s, per) + per <= Product(nt, Product(ns, per))
              && Words(data, nt, ns)[Product(t, Product(ns, per)) + Product(s, per)..][..per] == data[t][s]
  {
    if nt > 0 {
      WordsAt(data, nt - 1, ns, per, t, s);
      ProductNext(nt - 1, Product(ns, per));
      RowWordsAt(data[nt - 1], ns, per, s);
      if t == nt - 1 {
        RowWordsAt(data[t], ns, per, s);
      }
    }
    hide Product, RowShaped;
  }

  // ---------------------------------------------------------------- the file

  predicate Ascii(name: string) { forall i :: 0 <= i < |name| ==> name[i] < 0x80 as char }

  function Zeros(n: nat): (r: seq<Byte>)
    ensures |r| == n
  {
    seq(n, _ => 0)
  }

  function Cut(name: string): string { name[..Min(|name|, SYM_NAME_LEN - 1)] }

  function Encode(name: string): (r: seq<Byte>)
    requires Ascii(name)
    ensures |r| == |name|
  {
    seq(|name|, i requires 0 <= i < |name| => name[i] as int)
  }

  /** A name cut to fifteen characters and padded with NULs to sixteen. */
  function Slot(name: string): (r: seq<Byte>)
    requires Ascii(name)
    ensures |r| == SYM_NAME_LEN
  {
    Encode(Cut(name)) + Zeros(SYM_NAME_LEN - |Cut(name)|)
  }

  function NameTable(names: seq<string>): (r: File)
    requires forall i :: 0 <= i < |names| ==> Ascii(names[i])
    ensures |r| == SYM_NAME_LEN * |names|
  {
    if names == [] then [] else NameTable(names[..|names| - 1]) + Slot(names[|names| - 1])
  }

  datatype Header = Header(
    version: Word,
    numSymbols: Word,
    numTimesteps: Word,
    featuresPerSym: Word,
    priceFeatures: Word)

  function HeaderBytes(h: Header): (r: File)
    ensures |r| == HEADER_SIZE
  {
    MAGIC + Bytes([h.version, h.numSymbols, h.numTimesteps, h.featuresPerSym, h.priceFeatures]) + Zeros(40)
  }

  /** What the caller asks to be written. */
  datatype Market = Market(names: seq<string>, features: Block, prices: Block, nt: nat, per: nat, version: nat)

  /** Numbers fit the header, names are ASCII, and every row has its declared width. */
  predicate Writable(m: Market) {
    && m.version < 0x1_0000_0000 && m.nt < 0x1_0000_0000 && m.per < 0x1_0000_0000 && |m.names| < 0x1_0000_0000
    && (forall i :: 0 <= i < |m.names| ==> Ascii(m.names[i]))
    && Shaped(m.features, m.nt, |m.names|, m.per) && Shaped(m.prices, m.nt, |m.names|, PRICE_FEATURES)
  }

  function HeaderOf(m: Market): Header
    requires Writable(m)
  {
    Header(m.version, |m.names|, m.nt, m.per, PRICE_FEATURES)
  }

  function FileOf(m: Market): File
    requires Writable(m)
  {
    HeaderBytes(HeaderOf(m)) + NameTable(m.names)
    + Bytes(Words(m.features, m.nt, |m.names|)) + Bytes(Words(m.prices, m.nt, |m.names|))
  }

  function FeaturesAt(ns: nat): nat { HEADER_SIZE + SYM_NAME_LEN * ns }

  function PricesAt(nt: nat, ns: nat, per: nat): nat { FeaturesAt(ns) + 4 * Product(nt, Product(ns, per)) }

  /** Where each part of a written file lies, and how long the file is. */
  lemma FileLayout(m: Market)
    requires Writable(m)
    ensures var file, ns := FileOf(m), |m.names|;
            && |file| == PricesAt(m.nt, ns, m.per) + 4 * Product(m.nt, Product(ns, PRICE_FEATURES))
            && Holds(file, 0, HeaderBytes(HeaderOf(m))) && Holds(file, HEADER_SIZE, NameTable(m.names))
            && Holds(file, FeaturesAt(ns), Bytes(Words(m.features, m.nt, ns)))
            && Holds(file, PricesAt(m.nt, ns, m.per), Bytes(Words(m.prices, m.nt, ns)))
  {
    hide Product, Words, Bytes, NameTable, HeaderBytes, Holds, Shaped;
    WordCount(m.features, m.nt, |m.names|, m.per);
    WordCount(m.prices, m.nt, |m.names|, PRICE_FEATURES);
    Parts4(HeaderBytes(HeaderOf(m)), NameTable(m.names), Bytes(Words(m.features, m.nt, |m.names|)),
           Bytes(Words(m.prices, m.nt, |m.names|)));
  }

  lemma Parts4(a: File, b: File, c: File, d: File)
    ensures var f := a + b + c + d;
            && Holds(f, 0, a) && Holds(f, |a|, b) && Holds(f, |a| + |b|, c) && Holds(f, |a| + |b| + |c|, d)
  {
  }

  lemma {:induction false} RowCount(row: seq<seq<Word>>, ns: nat, per: nat)
    requires RowShaped(row, ns, per)
    ensures |RowWords(row, ns)| == Product(ns, per)
  {
    if ns > 0 {
      RowCount(row, ns - 1, per);
      ProductNext(ns - 1, per);
    }
  }

  lemma {:induction false} WordCount(data: Block, nt: nat, ns: nat, per: nat)
    requires Shaped(data, nt, ns, per)
    ensures |Words(data, nt, ns)| == Product(nt, Product(ns, per))
  {
    hide Product, RowShaped;
    ProductZero(nt);
    ProductZero(per);
    if nt == 0 {
      ProductZero(Product(ns, per));
    } else if ns > 0 {
      WordCount(data, nt - 1, ns, per);
      RowCount(data[nt - 1], ns, per);
      ProductNext(nt - 1, Product(ns, per));
    }
  }

  // ---------------------------------------------------------------- writing

  /** One bar's cells; a missing cell or one of the wrong width raises. */
  method PutRow(file: File, row: seq<seq<Word>>, ns: nat, per: nat) returns (r: Result<File>)
    ensures r.Ok? <==> RowShaped(row, ns, per)
    ensures r.Ok? ==> r.value == file + Bytes(RowWords(row, ns))
  {
    var out := file;
    for s := 0 to ns
      invariant RowShaped(row, s, per) && out == file + Bytes(RowWords(row, s))
    {
      if s >= |row| || |row[s]| != per {
        return Err("cannot pack row");
      }
      BytesOfCat(RowWords(row, s), row[s]);
      out := out + Bytes(row[s]);
    }
    r := Ok(out);
    hide Bytes;
  }

  method PutBlock(file: File, data: Block, nt: nat, ns: nat, per: nat) returns (r: Result<File>)
    ensures r.Ok? <==> Shaped(data, nt, ns, per)
    ensures r.Ok? ==> r.value == file + Bytes(Words(data, nt, ns))
  {
    hide Bytes, RowWords, RowShaped;
    var out := file;
    if ns == 0 {
      return Ok(out + Bytes([]));
    }
    for t := 0 to nt
      invariant Shaped(data, t, ns, per) && out == file + Bytes(Words(data, t, ns))
    {
      if t >= |data| {
        return Err("missing bar");
      }
      var put := PutRow(out, data[t], ns, per);
      if put.Err? {
        return put;
      }
      BytesOfCat(Words(data, t, ns), RowWords(data[t], ns));
      out := put.value;
    }
    r := Ok(out);
  }

  method WriteMarketBin(m: Market) returns (r: Result<File>)
    ensures r.Ok? <==> Writable(m)
    ensures r.Ok? ==> r.value == FileOf(m)
  {
    hide Bytes, Slot, Shaped, Words;
    var ns := |m.names|;
    if !(m.version < 0x1_0000_0000 && m.nt < 0x1_0000_0000 && m.per < 0x1_0000_0000 && ns < 0x1_0000_0000) {
      return Err("header field out of range");
    }
    var file := HeaderBytes(Header(m.version, ns, m.nt, m.per, PRICE_FEATURES));
    ghost var header := file;
    for i := 0 to ns
      invariant forall j :: 0 <= j < i ==> Ascii(m.names[j])
      invariant file == header + NameTable(m.names[..i])
    {
      if !Ascii(m.names[i]) {
        return Err("ordinal not in range(128)");
      }
      assert m.names[..i + 1][..i] == m.names[..i];
      file := file + Slot(m.names[i]);
    }
    assert m.names[..ns] == m.names;
    r := PutBlock(file, m.features, m.nt, ns, m.per);
    if r.Ok? {
      r := PutBlock(r.value, m.prices, m.nt, ns, PRICE_FEATURES);
    }
  }

  // ---------------------------------------------------------------- reading back

  function ReadHeader(file: File): Result<Header> {
    if |file| < HEADER_SIZE then Err("unpack requires a buffer of 64 bytes")
    else if file[..4] != MAGIC then Err("bad magic")
    else
      var w := Unpack(file, 4, 5);
      Ok(Header(w[0], w[1], w[2], w[3], w[4]))
  }

  function CellOffset(at: nat, ns: nat, per: nat, t: nat, s: nat): nat {
    at + 4 * (Product(t, Product(ns, per)) + Product(s, per))
  }

  /** The cell that a block at an offset holds for a bar and a symbol. */
  function CellAt(file: File, at: nat, ns: nat, per: nat, t: nat, s: nat): seq<Word>
    requires Readable(file, CellOffset(at, ns, per, t, s), per)
  {
    Unpack(file, CellOffset(at, ns, per, t, s), per)
  }

  lemma CellInside(nt: nat, ns: nat, per: nat, t: nat, s: nat)
    requires t < nt && s < ns
    ensures Product(t, Product(ns, per)) + Product(s, per) + per <= Product(nt, Product(ns, per))
  {
    ProductNext(s, per);
    ProductMono(s + 1, ns, per);
    ProductNext(t, Product(ns, per));
    ProductMono(t + 1, nt, Product(ns, per));
    hide Product;
  }

  /** The first `n` cells of bar `t`. */
  predicate IsRow(file: File, at: nat, ns: nat, per: nat, t: nat, row: seq<seq<Word>>, n: nat) {
    |row| == n && forall s :: 0 <= s < n ==>
      && Readable(file, CellOffset(at, ns, per, t, s), per)
      && row[s] == CellAt(file, at, ns, per, t, s)
  }

  /** A block of exactly these dimensions, cell by cell what the file holds from an offset on. */
  predicate IsBlock(file: File, at: nat, nt: nat, ns: nat, per: nat, data: Block) {
    |data| == nt && forall t :: 0 <= t < nt ==> IsRow(file, at, ns, per, t, data[t], ns)
  }

  /** Splits a block into bars, symbols and cells with one running index. */
  method ReadBlock(file: File, at: nat, nt: nat, ns: nat, per: nat) returns (r: Result<Block>)
    ensures r.Ok? <==> Readable(file, at, Product(nt, Product(ns, per)))
    ensures r.Ok? ==> IsBlock(file, at, nt, ns, per, r.value)
  {
    hide Product, WordAt;
    var count := Product(nt, Product(ns, per));
    if !Readable(file, at, count) {
      return Err("unpack requires a longer buffer");
    }
    var flat := Unpack(file, at, count);
    var out: Block := [];
    var i := 0;
    ProductZero(Product(ns, per));
    for t := 0 to nt
      invariant i == Product(t, Product(ns, per)) && IsBlock(file, at, t, ns, per, out)
    {
      var row: seq<seq<Word>> := [];
      ProductZero(per);
      for s := 0 to ns
        invariant i == Product(t, Product(ns, per)) + Product(s, per) && IsRow(file, at, ns, per, t, row, s)
      {
        CellInside(nt, ns, per, t, s);
        assert flat[i..i + per] == CellAt(file, at, ns, per, t, s);
        row := row + [flat[i..i + per]];
        ProductNext(s, per);
        i := i + per;
      }
      ProductNext(t, Product(ns, per));
      out := out + [row];
    }
    r := Ok(out);
  }

  method ReadFeatures(file: File) returns (r: Result<Block>)
    ensures r.Ok? <==>
            && ReadHeader(file).Ok?
            && var h := ReadHeader(file).value;
               Readable(file, FeaturesAt(h.numSymbols), Product(h.numTimesteps, Product(h.numSymbols, h.featuresPerSym)))
    ensures r.Ok? ==>
            var h := ReadHeader(file).value;
            IsBlock(file, FeaturesAt(h.numSymbols), h.numTimesteps, h.numSymbols, h.featuresPerSym, r.value)
  {
    var header := ReadHeader(file);
    if header.Err? {
      return Err(header.message);
    }
    var h := header.value;
    r := ReadBlock(file, FeaturesAt(h.numSymbols), h.numTimesteps, h.numSymbols, h.featuresPerSym);
    hide Product, IsBlock, ReadHeader;
  }

  method ReadPrices(file: File) returns (r: Result<Block>)
    ensures r.Ok? <==>
            && ReadHeader(file).Ok?
            && var h := ReadHeader(file).value;
               Readable(file, PricesAt(h.numTimesteps, h.numSymbols, h.featuresPerSym),
                        Product(h.numTimesteps, Product(h.numSymbols, h.priceFeatures)))
    ensures r.Ok? ==>
            var h := ReadHeader(file).value;
            IsBlock(file, PricesAt(h.numTimesteps, h.numSymbols, h.featuresPerSym), h.numTimesteps, h.numSymbols,
                    h.priceFeatures, r.value)
  {
    var header := ReadHeader(file);
    if header.Err? {
      return Err(header.message);
    }
    var h := header.value;
    r := ReadBlock(file, PricesAt(h.numTimesteps, h.numSymbols, h.featuresPerSym), h.numTimesteps, h.numSymbols,
                   h.priceFeatures);
    hide Product, IsBlock, ReadHeader;
  }

  function UntilNul(raw: seq<Byte>): seq<Byte> {
    if raw == [] || raw[0] == 0 then [] else [raw[0]] + UntilNul(raw[1..])
  }

  /** Up to sixteen bytes from an offset, fewer at the end of the file. */
  function RawName(file: File, i: nat): seq<Byte> {
    var at := HEADER_SIZE + SYM_NAME_LEN * i;
    file[Min(|file|, at)..Min(|file|, at + SYM_NAME_LEN)]
  }

  /** ASCII bytes as text. */
  function Decode(raw: seq<Byte>): Result<string> {
    if exists j :: 0 <= j < |raw| && raw[j] >= 0x80 then Err("ordinal not in range(128)")
    else Ok(seq(|raw|, i requires 0 <= i < |raw| => raw[i] as char))
  }

  function NameAt(file: File, i: nat): Result<string> { Decode(UntilNul(RawName(file, i))) }

  method ReadSymbols(file: File) returns (r: Result<seq<string>>)
    ensures r.Ok? <==> ReadHeader(file).Ok? &&
                       forall i :: 0 <= i < ReadHeader(file).value.numSymbols ==> NameAt(file, i).Ok?
    ensures r.Ok? ==> |r.value| == ReadHeader(file).value.numSymbols
    ensures r.Ok? ==> forall i :: 0 <= i < |r.value| ==> NameAt(file, i) == Ok(r.value[i])
  {
    var header := ReadHeader(file);
    if header.Err? {
      return Err(header.message);
    }
    hide ReadHeader, NameAt;
    var names: seq<string> := [];
    for i := 0 to header.value.numSymbols
      invariant |names| == i && forall j :: 0 <= j < i ==> NameAt(file, j) == Ok(names[j])
    {
      var name := NameAt(file, i);
      if name.Err? {
        return Err(name.message);
      }
      names := names + [name.value];
    }
    r := Ok(names);
  }

  // ---------------------------------------------------------------- round trip

  lemma HeaderRoundTrip(m: Market)
    requires Writable(m)
    ensures ReadHeader(FileOf(m)) == Ok(HeaderOf(m))
  {
    FileLayout(m);
    var file, h := FileOf(m), HeaderOf(m);
    var ws := [h.version, h.numSymbols, h.numTimesteps, h.featuresPerSym, h.priceFeatures];
    HeaderParts(file, ws);
    UnpackBytes(file, 4, ws);
    hide FileOf, Bytes, Holds;
    Fits(file, 0, HeaderBytes(h));
  }

  lemma HeaderParts(file: File, ws: seq<Word>)
    requires |ws| == 5 && Holds(file, 0, MAGIC + Bytes(ws) + Zeros(40))
    ensures |file| >= HEADER_SIZE && file[..4] == MAGIC && Holds(file, 4, Bytes(ws))
  {
    hide Bytes;
    var header := MAGIC + Bytes(ws) + Zeros(40);
    assert header[..4] == MAGIC && header[4..24] == Bytes(ws);
    assert file[..4] == header[..4] && file[4..24] == header[4..24];
  }

  /** A block written at an offset is read back cell by cell. */
  lemma BlockRoundTrip(file: File, at: nat, data: Block, nt: nat, ns: nat, per: nat, t: nat, s: nat)
    requires Shaped(data, nt, ns, per) && Holds(file, at, Bytes(Words(data, nt, ns))) && t < nt && s < ns
    ensures CellOffset(at, ns, per, t, s) + 4 * per <= |file|
    ensures CellAt(file, at, ns, per, t, s) == data[t][s]
  {
    hide Product, WordAt, Holds, Bytes, Words;
    WordCount(data, nt, ns, per);
    WordsAt(data, nt, ns, per, t, s);
    UnpackBytes(file, at, Words(data, nt, ns));
    var k := Product(t, Product(ns, per)) + Product(s, per);
    var all := Unpack(file, at, Product(nt, Product(ns, per)));
    assert all[k..][..per] == CellAt(file, at, ns, per, t, s);
  }

  /** What a written file gives back: every feature and every price, and its length is fixed by the
      dimensions. */
  lemma MarketRoundTrip(m: Market, t: nat, s: nat)
    requires Writable(m) && t < m.nt && s < |m.names|
    ensures var file, ns := FileOf(m), |m.names|;
            && ReadHeader(file) == Ok(HeaderOf(m))
            && |file| == 64 + 16 * ns + 4 * Product(m.nt, Product(ns, m.per)) + 4 * Product(m.nt, Product(ns, 5))
            && CellOffset(FeaturesAt(ns), ns, m.per, t, s) + 4 * m.per <= |file|
            && CellAt(file, FeaturesAt(ns), ns, m.per, t, s) == m.features[t][s]
            && CellOffset(PricesAt(m.nt, ns, m.per), ns, 5, t, s) + 4 * 5 <= |file|
            && CellAt(file, PricesAt(m.nt, ns, m.per), ns, 5, t, s) == m.prices[t][s]
  {
    HeaderRoundTrip(m);
    FileLayout(m);
    var file, ns := FileOf(m), |m.names|;
    BlockRoundTrip(file, FeaturesAt(ns), m.features, m.nt, ns, m.per, t, s);
    BlockRoundTrip(file, PricesAt(m.nt, ns, m.per), m.prices, m.nt, ns, PRICE_FEATURES, t, s);
    hide Product, FileOf, CellAt, Holds, ReadHeader, Bytes, Words, Shaped;
  }

  lemma {:induction false} SlotAt(names: seq<string>, i: nat)
    requires i < |names| && forall j :: 0 <= j < |names| ==> Ascii(names[j])
    ensures NameTable(names)[SYM_NAME_LEN * i..SYM_NAME_LEN * i + SYM_NAME_LEN] == Slot(names[i])
  {
    if i < |names| - 1 {
      SlotAt(names[..|names| - 1], i);
    }
    hide Slot;
  }

  predicate HasNul(name: string) { exists i :: 0 <= i < |name| && name[i] == 0 as char }

  /** The name up to its first NUL. */
  function BeforeNul(name: string): string {
    if name == [] || name[0] == 0 as char then [] else [name[0]] + BeforeNul(name[1..])
  }

  lemma {:induction false} BeforeNulIsAll(name: string)
    ensures BeforeNul(name) == name <==> !HasNul(name)
  {
    if name == [] {
    } else if name[0] == 0 as char {
    } else {
      BeforeNulIsAll(name[1..]);
      assert name == [name[0]] + name[1..];
      assert HasNul(name[1..]) ==> HasNul(name) by {
        if HasNul(name[1..]) {
          var i :| 0 <= i < |name[1..]| && name[1..][i] == 0 as char;
          assert name[i + 1] == 0 as char;
        }
      }
    }
  }

  /** The bytes of a padded name, read up to the first NUL, spell the name up to its first NUL. */
  lemma {:induction false} UntilNulOfPadded(name: string, n: nat)
    requires Ascii(name) && n > 0
    ensures Decode(UntilNul(Encode(name) + Zeros(n))) == Ok(BeforeNul(name))
  {
    var all := Encode(name) + Zeros(n);
    if name == [] || name[0] == 0 as char {
      assert all[0] == 0 && UntilNul(all) == [];
      DecodeNothing();
    } else {
      UntilNulOfPadded(name[1..], n);
      assert all[1..] == Encode(name[1..]) + Zeros(n);
      DecodeMore(all[0], UntilNul(all[1..]));
    }
    hide Decode;
  }

  lemma DecodeNothing()
    ensures Decode([]) == Ok("")
  {
    assert Decode([]).value == "";
  }

  lemma DecodeMore(b: Byte, rest: seq<Byte>)
    requires b < 0x80 && Decode(rest).Ok?
    ensures Decode([b] + rest) == Ok([b as char] + Decode(rest).value)
  {
    var all := [b] + rest;
    assert forall j :: 0 <= j < |rest| ==> rest[j] < 0x80;
    assert forall j :: 0 < j < |all| ==> all[j] == rest[j - 1];
    assert Decode(all).Ok?;
    assert Decode(all).value == [b as char] + Decode(rest).value;
  }

  /** A name comes back cut to fifteen characters, exactly if those contain no NUL. */
  lemma NameRoundTrip(m: Market, i: nat)
    requires Writable(m) && i < |m.names|
    ensures NameAt(FileOf(m), i) == Ok(BeforeNul(Cut(m.names[i])))
    ensures NameAt(FileOf(m), i) == Ok(Cut(m.names[i])) <==> !HasNul(Cut(m.names[i]))
  {
    hide FileOf, Holds, NameTable, Bytes, UntilNul, Decode, BeforeNul, HasNul, RawName, Cut, Encode;
    var name := m.names[i];
    FileLayout(m);
    SlotAt(m.names, i);
    RawIsSlot(FileOf(m), m.names, i);
    CutFits(name);
    UntilNulOfPadded(Cut(name), SYM_NAME_LEN - |Cut(name)|);
    BeforeNulIsAll(Cut(name));
  }

  lemma CutFits(name: string)
    requires Ascii(name)
    ensures |Cut(name)| < SYM_NAME_LEN && Ascii(Cut(name))
  {
  }

  lemma PartHolds(file: File, at: nat, part: File, a: nat, n: nat)
    requires Holds(file, at, part) && a + n <= |part|
    ensures Holds(file, at + a, part[a..a + n])
  {
    var whole, f, p := file[at..at + |part|], file[at + a..at + a + n], part[a..a + n];
    forall k | 0 <= k < n
      ensures f[k] == p[k]
    {
      assert whole[a + k] == file[at + (a + k)];
    }
    assert f == p;
  }

  lemma RawIsSlot(file: File, names: seq<string>, i: nat)
    requires i < |names| && forall j :: 0 <= j < |names| ==> Ascii(names[j])
    requires Holds(file, HEADER_SIZE, NameTable(names))
    requires NameTable(names)[SYM_NAME_LEN * i..SYM_NAME_LEN * i + SYM_NAME_LEN] == Slot(names[i])
    ensures RawName(file, i) == Slot(names[i])
  {
    hide NameTable, Slot, Ascii;
    PartHolds(file, HEADER_SIZE, NameTable(names), SYM_NAME_LEN * i, SYM_NAME_LEN);
    RawIs(file, i, Slot(names[i]));
    hide Holds, RawName;
  }

  lemma RawIs(file: File, i: nat, slot: seq<Byte>)
    requires |slot| == SYM_NAME_LEN && Holds(file, HEADER_SIZE + SYM_NAME_LEN * i, slot)
    ensures RawName(file, i) == slot
  {
  }

  // ---------------------------------------------------------------- the simulator's loader

  /** What the loader keeps: dimensions and where the arrays start. */
  datatype Loaded = Loaded(ns: nat, nt: nat, per: nat, features: nat, prices: nat, mask: Option<nat>)

  /** The words of a block, as the loader counts them. */
  function CountOf(nt: nat, ns: nat, per: nat): nat { nt * ns * per }

  /** A declared width of zero falls back to sixteen. */
  function WidthOf(declared: nat): nat { if declared > 0 then declared else FEATURES_PER_SYM }

  /** Null, here an error, for a bad magic, too many symbols, or a missing mask from version 2 on. */
  function Load(file: File): Result<Loaded>
    requires HEADER_SIZE <= |file|
  {
    if ReadHeader(file).Err? then Err("bad magic")
    else
      var Header(version, ns, nt, declared, _) := ReadHeader(file).value;
      var per := WidthOf(declared);
      if ns > MAX_SYMBOLS then Err("too many symbols")
      else
        var features := HEADER_SIZE + ns * SYM_NAME_LEN;
        var prices := features + 4 * CountOf(nt, ns, per);
        var end := prices + 4 * CountOf(nt, ns, PRICE_FEATURES);
        var fits := end + Product(nt, ns) <= |file|;
        if version >= 2 && !fits then Err("missing tradable mask")
        else Ok(Loaded(ns, nt, per, features, prices, if fits then Some(end) else None))
  }

  /** Where the accessors find a feature and a price. */
  function FeatureOffset(l: Loaded, t: nat, s: nat, f: nat): nat { l.features + 4 * Flat(t, l.ns, s, l.per, f) }

  function PriceOffset(l: Loaded, t: nat, s: nat, p: nat): nat { l.prices + 4 * Flat(t, l.ns, s, PRICE_FEATURES, p) }

  function Flat(t: nat, ns: nat, s: nat, per: nat, f: nat): nat { (t * ns + s) * per + f }

  lemma FlatIndex(t: nat, ns: nat, s: nat, per: nat, f: nat)
    ensures Flat(t, ns, s, per, f) == Product(t, Product(ns, per)) + Product(s, per) + f
    ensures CountOf(t, ns, per) == Product(t, Product(ns, per))
  {
    assert (t * ns + s) * per == t * ns * per + s * per;
    assert t * ns * per == t * (ns * per);
  }

  /** The loader on a file just written. With bars and symbols, a version below 2 loads with the dimensions
      written and no mask, and from version 2 on the file is refused. Without, nothing after the prices tells
      a missing mask from an empty one: the file always loads and seems to carry one. */
  lemma LoaderAccepts(m: Market)
    requires Writable(m)
    ensures HEADER_SIZE <= |FileOf(m)|
    ensures var ns, per, empty := |m.names|, WidthOf(m.per), m.nt == 0 || |m.names| == 0;
            Load(FileOf(m)) ==
            if ns > MAX_SYMBOLS then Err("too many symbols")
            else if m.version >= 2 && !empty then Err("missing tradable mask")
            else Ok(Loaded(ns, m.nt, per, FeaturesAt(ns), PricesAt(m.nt, ns, per),
                           if empty then Some(|FileOf(m)|) else None))
  {
    hide FileOf, ReadHeader, Holds, Product, Bytes, NameTable, CountOf, Flat, Shaped;
    var ns, per := |m.names|, WidthOf(m.per);
    HeaderRoundTrip(m);
    FileLayout(m);
    FlatIndex(m.nt, ns, 0, per, 0);
    FlatIndex(m.nt, ns, 0, PRICE_FEATURES, 0);
    if m.nt == 0 || ns == 0 {
      NoCells(m.nt, ns, per);
      NoCells(m.nt, ns, m.per);
      NoCells(m.nt, ns, PRICE_FEATURES);
    } else {
      CellsExist(m.nt, ns);
      WidthHolds(m.nt, ns, m.per);
    }
  }

  lemma NoCells(nt: nat, ns: nat, per: nat)
    requires nt == 0 || ns == 0
    ensures Product(nt, ns) == 0 == Product(nt, Product(ns, per))
  {
  }

  /** The width the loader works with is no smaller than the one declared. */
  lemma WidthHolds(nt: nat, ns: nat, per: nat)
    ensures Product(nt, Product(ns, per)) <= Product(nt, Product(ns, WidthOf(per)))
  {
    if per == 0 {
      ProductZero(ns);
      ProductZero(nt);
    }
    hide Product;
  }

  lemma CellsExist(nt: nat, ns: nat)
    requires 0 < nt && 0 < ns
    ensures 0 < Product(nt, ns)
  {
  }

  /** Every accessor of the loader reads the cell that was written. */
  lemma LoaderReadsWhatWasWritten(m: Market, t: nat, s: nat, f: nat, p: nat)
    requires Writable(m) && 0 < m.per && |m.names| <= MAX_SYMBOLS && m.version < 2
    requires t < m.nt && s < |m.names| && f < m.per && p < PRICE_FEATURES
    ensures HEADER_SIZE <= |FileOf(m)| && Load(FileOf(m)).Ok?
    ensures var file, l := FileOf(m), Load(FileOf(m)).value;
            && FeatureOffset(l, t, s, f) + 4 <= |file| && PriceOffset(l, t, s, p) + 4 <= |file|
            && WordAt(file, FeatureOffset(l, t, s, f)) == m.features[t][s][f]
            && WordAt(file, PriceOffset(l, t, s, p)) == m.prices[t][s][p]
  {
    hide FileOf, Load, ReadHeader, Product, CellAt, WordAt, Flat, CountOf, Writable;
    LoaderAccepts(m);
    MarketRoundTrip(m, t, s);
    CellWidths(m, t, s);
    var file, ns := FileOf(m), |m.names|;
    FlatIndex(t, ns, s, m.per, f);
    FlatIndex(t, ns, s, PRICE_FEATURES, p);
    CellWord(file, FeaturesAt(ns), ns, m.per, t, s, f);
    CellWord(file, PricesAt(m.nt, ns, m.per), ns, PRICE_FEATURES, t, s, p);
  }

  lemma CellWidths(m: Market, t: nat, s: nat)
    requires Writable(m) && t < m.nt && s < |m.names|
    ensures |m.features[t][s]| == m.per && |m.prices[t][s]| == PRICE_FEATURES
  {
    assert RowShaped(m.features[t], |m.names|, m.per) && RowShaped(m.prices[t], |m.names|, PRICE_FEATURES);
  }

  lemma CellWord(file: File, at: nat, ns: nat, per: nat, t: nat, s: nat, f: nat)
    requires f < per && CellOffset(at, ns, per, t, s) + 4 * per <= |file|
    ensures CellAt(file, at, ns, per, t, s)[f] == WordAt(file, at + 4 * (Product(t, Product(ns, per)) + Product(s, per) + f))
  {
  }

  /** A file just written always seems to carry a mask without cells, and never with them. */
  lemma SpuriousMaskIffEmpty(m: Market)
    requires Writable(m) && |m.names| <= MAX_SYMBOLS
    ensures HEADER_SIZE <= |FileOf(m)|
    ensures var l := Load(FileOf(m));
            l.Ok? && l.value.mask.Some? <==> m.nt == 0 || |m.names| == 0
  {
    hide FileOf, Load;
    LoaderAccepts(m);
  }

  // ---------------------------------------------------------------- accessors and the end of the file

  /** Every feature and every price an accessor may be asked for lies in the file. */
  ghost predicate InBounds(file: File, l: Loaded) {
    forall t, s :: 0 <= t < l.nt && 0 <= s < l.ns ==> CellInBounds(file, l, t, s)
  }

  ghost predicate CellInBounds(file: File, l: Loaded, t: nat, s: nat) {
    && (forall f :: 0 <= f < l.per ==> FeatureOffset(l, t, s, f) + 4 <= |file|)
    && (forall p :: 0 <= p < PRICE_FEATURES ==> PriceOffset(l, t, s, p) + 4 <= |file|)
  }

  /** The loader checks no array against the file: the accessors stay inside it exactly when there are no
      cells or the price array ends inside it. */
  lemma LoaderInBounds(file: File)
    requires HEADER_SIZE <= |file| && Load(file).Ok?
    ensures var l := Load(file).value;
            InBounds(file, l) <==>
            l.nt == 0 || l.ns == 0 || l.prices + 4 * CountOf(l.nt, l.ns, PRICE_FEATURES) <= |file|
  {
    var l := Load(file).value;
    hide Load, Flat, CountOf, Product;
    if l.nt > 0 && l.ns > 0 {
      LastCell(l);
      if l.prices + 4 * CountOf(l.nt, l.ns, PRICE_FEATURES) <= |file| {
        forall t, s | 0 <= t < l.nt && 0 <= s < l.ns
          ensures CellInBounds(file, l, t, s)
        {
          OffsetsOfCell(file, l, t, s);
        }
      } else {
        assert !CellInBounds(file, l, l.nt - 1, l.ns - 1);
      }
    }
  }

  /** The last price of the last cell ends where the array does. */
  lemma LastCell(l: Loaded)
    requires l.nt > 0 && l.ns > 0
    ensures PriceOffset(l, l.nt - 1, l.ns - 1, 4) + 4 == l.prices + 4 * CountOf(l.nt, l.ns, PRICE_FEATURES)
  {
    FlatIndex(l.nt, l.ns, 0, PRICE_FEATURES, 0);
    FlatIndex(l.nt - 1, l.ns, l.ns - 1, PRICE_FEATURES, 4);
    ProductNext(l.ns - 1, PRICE_FEATURES);
    ProductNext(l.nt - 1, Product(l.ns, PRICE_FEATURES));
    hide Flat, CountOf, Product;
  }

  lemma OffsetsOfCell(file: File, l: Loaded, t: nat, s: nat)
    requires t < l.nt && s < l.ns && l.prices == l.features + 4 * CountOf(l.nt, l.ns, l.per)
    requires l.prices + 4 * CountOf(l.nt, l.ns, PRICE_FEATURES) <= |file|
    ensures CellInBounds(file, l, t, s)
  {
    hide Flat, CountOf, Product;
    FlatIndex(l.nt, l.ns, 0, PRICE_FEATURES, 0);
    FlatIndex(l.nt, l.ns, 0, l.per, 0);
    CellInside(l.nt, l.ns, PRICE_FEATURES, t, s);
    CellInside(l.nt, l.ns, l.per, t, s);
    forall f | 0 <= f < l.per
      ensures FeatureOffset(l, t, s, f) + 4 <= |file|
    {
      FlatIndex(t, l.ns, s, l.per, f);
    }
    forall p | 0 <= p < PRICE_FEATURES
      ensures PriceOffset(l, t, s, p) + 4 <= |file|
    {
      FlatIndex(t, l.ns, s, PRICE_FEATURES, p);
    }
  }

  /** A file written with cells of no features loads, below version 2, as if they had sixteen, and its prices
      are looked for past its end. Any other written file that loads is in bounds. */
  lemma WrittenFileInBounds(m: Market)
    requires Writable(m) && HEADER_SIZE <= |FileOf(m)| && Load(FileOf(m)).Ok?
    ensures InBounds(FileOf(m), Load(FileOf(m)).value) <==> m.per > 0 || m.nt == 0 || |m.names| == 0
  {
    hide FileOf, Load, Product, InBounds, Holds;
    LoaderAccepts(m);
    LoaderInBounds(FileOf(m));
    FileLayout(m);
    var ns := |m.names|;
    FlatIndex(m.nt, ns, 0, PRICE_FEATURES, 0);
    if m.per == 0 {
      ProductZero(ns);
      ProductZero(m.nt);
      if m.nt > 0 && ns > 0 {
        ManyCells(m.nt, ns);
      }
    }
    hide CountOf, Bytes, Words, NameTable, Shaped;
  }

  lemma ManyCells(nt: nat, ns: nat)
    requires 0 < nt && 0 < ns
    ensures 0 < Product(nt, Product(ns, FEATURES_PER_SYM))
  {
    CellsExist(ns, FEATURES_PER_SYM);
    CellsExist(nt, Product(ns, FEATURES_PER_SYM));
  }

  /** One bar of one symbol without features. */
  function Featureless(): Market { Market(["A"], [[[]]], [[[0, 0, 0, 0, 0]]], 1, 0, 1) }

  /** Written and loaded, it is taken for a bar of sixteen features, and its price is looked for past the end. */
  lemma FeaturelessIsOutOfBounds()
    ensures Writable(Featureless()) && HEADER_SIZE <= |FileOf(Featureless())| && Load(FileOf(Featureless())).Ok?
    ensures var file, l := FileOf(Featureless()), Load(FileOf(Featureless())).value;
            l.per == 16 && l.mask == None && !InBounds(file, l) && |file| < PriceOffset(l, 0, 0, 0)
  {
    var m := Featureless();
    assert RowShaped(m.features[0], 1, 0) && RowShaped(m.prices[0], 1, 5);
    assert Writable(m);
    hide FileOf, Load, Holds, InBounds, Writable;
    LoaderAccepts(m);
    WrittenFileInBounds(m);
    FileLayout(m);
    hide Bytes, Words, NameTable;
  }
}
