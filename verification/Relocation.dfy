/** From an ELF image to a bFLT file and from there into memory: what every relocated word holds at the end. */
module Relocation {
  type Byte = b: nat | b < 256

  type Word = w: nat | w < 0x1_0000_0000

  const HEADER := 0x40
  const BFLT_ENTRY := 0x08
  const BFLT_DATA_START := 0x0c
  const BFLT_BSS_START := 0x10
  const BFLT_BSS_END := 0x14
  const BFLT_STACK_SIZE := 0x18
  const BFLT_RELOC_START := 0x1c
  const BFLT_RELOC_COUNT := 0x20

  // ---------------------------------------------------------------- words in bytes

  /** Byte k of a word, the low-order one first. */
  function ByteOf(w: Word, k: nat): Byte
    requires k < 4
  {
    if k == 0 then w % 0x100 else if k == 1 then w / 0x100 % 0x100 else if k == 2 then w / 0x100 / 0x100 % 0x100
      else w / 0x100 / 0x100 / 0x100
  }

  function FromBytes(b0: Byte, b1: Byte, b2: Byte, b3: Byte): Word {
    b0 + 0x100 * b1 + 0x1_0000 * b2 + 0x100_0000 * b3
  }

  lemma BytesOfWord(w: Word)
    ensures FromBytes(ByteOf(w, 0), ByteOf(w, 1), ByteOf(w, 2), ByteOf(w, 3)) == w
  {}

  function Little(w: Word): (r: seq<Byte>)
    ensures |r| == 4
  {
    [ByteOf(w, 0), ByteOf(w, 1), ByteOf(w, 2), ByteOf(w, 3)]
  }

  /** A word in network order. */
  function Big(w: Word): (r: seq<Byte>)
    ensures |r| == 4
  {
    [ByteOf(w, 3), ByteOf(w, 2), ByteOf(w, 1), ByteOf(w, 0)]
  }

  /** The word that the little-endian processor reads at p. */
  function Get(s: seq<Byte>, p: nat): Word
    requires p + 4 <= |s|
  {
    FromBytes(s[p], s[p + 1], s[p + 2], s[p + 3])
  }

  function GetBig(s: seq<Byte>, p: nat): Word
    requires p + 4 <= |s|
  {
    FromBytes(s[p + 3], s[p + 2], s[p + 1], s[p])
  }

  lemma GetOf(s: seq<Byte>, p: nat, w: Word)
    requires p + 4 <= |s|
    ensures s[p..p + 4] == Little(w) ==> Get(s, p) == w
    ensures s[p..p + 4] == Big(w) ==> GetBig(s, p) == w
  {
    BytesOfWord(w);
    assert s[p] == s[p..p + 4][0] && s[p + 1] == s[p..p + 4][1] && s[p + 2] == s[p..p + 4][2]
           && s[p + 3] == s[p..p + 4][3];
  }

  function Put(s: seq<Byte>, p: nat, w: Word): (r: seq<Byte>)
    requires p + 4 <= |s|
    ensures |r| == |s| && r[p..p + 4] == Little(w)
    ensures forall k :: 0 <= k < |s| && !(p <= k < p + 4) ==> r[k] == s[k]
  {
    s[..p] + Little(w) + s[p + 4..]
  }

  predicate Covers(q: nat, p: nat) {
    q <= p < q + 4
  }

  function Minus(a: Word, b: Word): Word {
    (a - b) % 0x1_0000_0000
  }

  // ---------------------------------------------------------------- what the converter writes

  /** A section of the image that is written out; rewritten ones hold data whose words may be relocated. */
  datatype Section = Section(offset: nat, size: nat, rewritten: bool)

  /** The sizes and places that the converter has worked out before it writes. */
  datatype Layout = Layout(textOffset: Word, dataStart: Word, bssStart: Word, bssEnd: Word, flags: Word)

  predicate In(p: nat, s: Section) {
    s.offset <= p < s.offset + s.size
  }

  ghost predicate InData(p: nat, sections: seq<Section>) {
    exists i :: 0 <= i < |sections| && sections[i].rewritten && In(p, sections[i])
  }

  /** A section lies within the image, behind the text offset, and its output lies before the bss. */
  predicate SectionOk(elf: seq<Byte>, s: Section, l: Layout) {
    && l.textOffset <= s.offset && s.offset + s.size <= |elf|
    && HEADER + (s.offset + s.size - l.textOffset) <= l.bssStart
    && (s.rewritten ==> s.offset % 4 == 0 && s.size % 4 == 0)
  }

  /** The relocations are those of an image linked so that file offset and address agree: word-aligned, inside data
      sections. */
  ghost predicate InputOk(elf: seq<Byte>, sections: seq<Section>, rels: seq<Word>, l: Layout) {
    && l.textOffset % 4 == 0 && HEADER <= l.bssStart <= l.bssEnd
    && l.bssStart + 4 * |rels| < 0x1_0000_0000
    && (forall i :: 0 <= i < |sections| ==> SectionOk(elf, sections[i], l))
    && (forall i, j, p :: 0 <= i < j < |sections| && In(p, sections[i]) ==> !In(p, sections[j]))
    && (forall k :: 0 <= k < |rels| ==> rels[k] % 4 == 0 && InData(rels[k], sections))
  }

  /** A byte of the image with the text offset taken off every relocated word. */
  function Patched(elf: seq<Byte>, rels: seq<Word>, textOffset: Word, p: nat): Byte
    requires p < |elf|
  {
    var w := p - p % 4;
    if w in rels && w + 4 <= |elf| then ByteOf(Minus(Get(elf, w), textOffset), p % 4) else elf[p]
  }

  ghost predicate SectionWritten(out: seq<Byte>, elf: seq<Byte>, rels: seq<Word>, l: Layout, s: Section)
    requires SectionOk(elf, s, l)
  {
    forall p :: In(p, s) ==>
      HEADER + p - l.textOffset < |out| && out[HEADER + p - l.textOffset] == Patched(elf, rels, l.textOffset, p)
  }

  ghost predicate HeaderWritten(out: seq<Byte>, rels: seq<Word>, l: Layout) {
    && |out| >= HEADER && |rels| < 0x1_0000_0000
    && out[..4] == [98, 70, 76, 84]
    && GetBig(out, BFLT_ENTRY) == HEADER && GetBig(out, BFLT_DATA_START) == l.dataStart
    && GetBig(out, BFLT_BSS_START) == l.bssStart && GetBig(out, BFLT_BSS_END) == l.bssEnd
    && GetBig(out, BFLT_STACK_SIZE) == 8192
    && GetBig(out, BFLT_RELOC_START) == (if |rels| > 0 then l.bssStart else 0)
    && GetBig(out, BFLT_RELOC_COUNT) == |rels|
  }

  ghost predicate TableWritten(out: seq<Byte>, rels: seq<Word>, l: Layout, n: nat) {
    && (n > 0 ==> l.bssStart + 4 * n <= |out|)
    && forall k :: 0 <= k < n && k < |rels| ==>
         l.bssStart + 4 * k + 4 <= |out| && GetBig(out, l.bssStart + 4 * k) == Minus(rels[k], l.textOffset)
  }

  /** Everything the loader relies on. */
  ghost predicate IsBflt(out: seq<Byte>, elf: seq<Byte>, sections: seq<Section>, rels: seq<Word>, l: Layout)
    requires InputOk(elf, sections, rels, l)
  {
    && HeaderWritten(out, rels, l)
    && (forall i :: 0 <= i < |sections| ==> SectionWritten(out, elf, rels, l, sections[i]))
    && TableWritten(out, rels, l, |rels|)
  }

  // ---------------------------------------------------------------- what the loader makes of it

  /** Adding the load address to the word at each listed place, one after the other. */
  function AddBase(image: seq<Byte>, places: seq<Word>, base: Word): (r: seq<Byte>)
    requires forall k :: 0 <= k < |places| ==> places[k] + 4 <= |image|
    ensures |r| == |image|
  {
    if places == [] then image
    else
      var n := |places| - 1;
      var r := AddBase(image, places[..n], base);
      Put(r, places[n], (Get(r, places[n]) + base) % 0x1_0000_0000)
  }

  function Count(places: seq<Word>, p: nat): nat {
    if places == [] then 0 else Count(places[..|places| - 1], p) + if places[|places| - 1] == p then 1 else 0
  }

  lemma PutGet(s: seq<Byte>, q: nat, w: Word, p: nat)
    requires q + 4 <= |s| && p + 4 <= |s| && p % 4 == q % 4
    ensures Get(Put(s, q, w), p) == if p == q then w else Get(s, p)
  {
    hide FromBytes, Little, Put;
    if p == q {
      GetOf(Put(s, q, w), p, w);
    }
  }

  lemma Unchanged(w: Word)
    ensures w % 0x1_0000_0000 == w
  {}

  lemma ModAdd(x: nat, y: nat)
    ensures (x % 0x1_0000_0000 + y) % 0x1_0000_0000 == (x + y) % 0x1_0000_0000
  {
    var q := x / 0x1_0000_0000;
    assert x + y == q * 0x1_0000_0000 + (x % 0x1_0000_0000 + y);
  }

  lemma Again(w: Word, n: nat, base: Word)
    ensures ((w + n * base) % 0x1_0000_0000 + base) % 0x1_0000_0000 == (w + (n + 1) * base) % 0x1_0000_0000
  {
    assert w + (n + 1) * base == (w + n * base) + base;
    ModAdd(w + n * base, base);
  }

  /** A word ends up with the load address added once for every time it is listed. */
  lemma {:induction false} AddBaseAt(image: seq<Byte>, places: seq<Word>, base: Word, p: nat)
    requires forall k :: 0 <= k < |places| ==> places[k] + 4 <= |image| && places[k] % 4 == 0
    requires p % 4 == 0 && p + 4 <= |image|
    ensures Get(AddBase(image, places, base), p) == (Get(image, p) + Count(places, p) * base) % 0x1_0000_0000
  {
    hide Get, Put;
    if places == [] {
      Unchanged(Get(image, p));
    } else {
      var n := |places| - 1;
      var r := AddBase(image, places[..n], base);
      AddBaseAt(image, places[..n], base, p);
      PutGet(r, places[n], (Get(r, places[n]) + base) % 0x1_0000_0000, p);
      if places[n] == p {
        Again(Get(image, p), Count(places[..n], p), base);
      }
    }
  }

  /** A byte no listed word covers stays as it was. */
  lemma {:induction false} AddBaseElsewhere(image: seq<Byte>, places: seq<Word>, base: Word, p: nat)
    requires forall k :: 0 <= k < |places| ==> places[k] + 4 <= |image|
    requires p < |image| && forall k :: 0 <= k < |places| ==> !Covers(places[k], p)
    ensures AddBase(image, places, base)[p] == image[p]
  {
    if places != [] {
      AddBaseElsewhere(image, places[..|places| - 1], base, p);
    }
  }

  /** The program before relocation: what the file holds from the text on, then zeros for the bss. */
  function Image(out: seq<Byte>, textStart: nat, ondisk: nat, total: nat): (r: seq<Byte>)
    ensures |r| == total
  {
    seq(total, x requires 0 <= x < total => if x < ondisk && textStart + x < |out| then out[textStart + x] else 0)
  }

  /** The relocation table moved to addresses within the program. */
  function Places(rels: seq<Word>, textOffset: Word): (r: seq<Word>)
    ensures |r| == |rels| && forall k :: 0 <= k < |r| ==> r[k] == Minus(rels[k], textOffset)
  {
    seq(|rels|, k requires 0 <= k < |rels| => Minus(rels[k], textOffset))
  }

  lemma {:induction false} CountPlaces(rels: seq<Word>, textOffset: Word, p: Word)
    requires p >= textOffset && forall k :: 0 <= k < |rels| ==> rels[k] >= textOffset
    ensures Count(Places(rels, textOffset), p - textOffset) == Count(rels, p)
  {
    if rels != [] {
      var n := |rels| - 1;
      CountPlaces(rels[..n], textOffset, p);
      assert Places(rels, textOffset)[..n] == Places(rels[..n], textOffset);
    }
  }

  /** A word inside a data section is moved to an address inside the part of the program on disk. */
  lemma WordInside(elf: seq<Byte>, s: Section, r: Word, l: Layout)
    requires SectionOk(elf, s, l) && s.rewritten && In(r, s) && r % 4 == 0 && l.textOffset % 4 == 0
    ensures l.textOffset <= r && r as int + 4 <= |elf| && Minus(r, l.textOffset) == r - l.textOffset
    ensures Minus(r, l.textOffset) % 4 == 0 && Minus(r, l.textOffset) as int + 4 <= l.bssStart - HEADER
  {
    assert r + 4 <= s.offset + s.size;
  }

  /** A relocated word lies wholly inside one data section. */
  lemma RelocationInside(elf: seq<Byte>, sections: seq<Section>, rels: seq<Word>, l: Layout, k: nat)
    requires InputOk(elf, sections, rels, l) && k < |rels|
    ensures l.textOffset <= rels[k] && rels[k] as int + 4 <= |elf|
    ensures Minus(rels[k], l.textOffset) == rels[k] - l.textOffset
    ensures Minus(rels[k], l.textOffset) % 4 == 0
    ensures Minus(rels[k], l.textOffset) as int + 4 <= l.bssStart - HEADER
  {
    hide SectionOk, In, Minus;
    assert InData(rels[k], sections);
    var i :| 0 <= i < |sections| && sections[i].rewritten && In(rels[k], sections[i]);
    WordInside(elf, sections[i], rels[k], l);
  }

  /** Every relocated word lies in the program. */
  ghost predicate Fit(rels: seq<Word>, l: Layout) {
    && HEADER <= l.bssStart <= l.bssEnd
    && (forall k :: 0 <= k < |rels| ==> rels[k] >= l.textOffset)
    && var places := Places(rels, l.textOffset);
       forall k :: 0 <= k < |places| ==> places[k] as int + 4 <= l.bssEnd - HEADER && places[k] % 4 == 0
  }

  lemma PlacesFit(elf: seq<Byte>, sections: seq<Section>, rels: seq<Word>, l: Layout)
    requires InputOk(elf, sections, rels, l)
    ensures Fit(rels, l)
  {
    forall k | 0 <= k < |rels|
      ensures rels[k] >= l.textOffset && Places(rels, l.textOffset)[k] as int + 4 <= l.bssEnd - HEADER
      ensures Places(rels, l.textOffset)[k] % 4 == 0
    {
      RelocationInside(elf, sections, rels, l, k);
    }
  }

  /** The program in memory once it is loaded at base. */
  function Loaded(out: seq<Byte>, rels: seq<Word>, l: Layout, base: Word): (r: seq<Byte>)
    requires Fit(rels, l)
    ensures |r| == l.bssEnd - HEADER
  {
    AddBase(Image(out, HEADER, l.bssStart - HEADER, l.bssEnd - HEADER), Places(rels, l.textOffset), base)
  }

  /** A loaded word: what the file holds for it, with the load address added as often as it is listed. */
  lemma LoadedWord(out: seq<Byte>, rels: seq<Word>, l: Layout, base: Word, p: Word)
    requires Fit(rels, l) && p % 4 == 0 && l.textOffset % 4 == 0 && l.textOffset <= p
             && p + 4 - l.textOffset <= l.bssEnd - HEADER
    ensures var image := Image(out, HEADER, l.bssStart - HEADER, l.bssEnd - HEADER);
            var q := p - l.textOffset;
            Get(Loaded(out, rels, l, base), q) == (Get(image, q) + Count(rels, p) * base) % 0x1_0000_0000
  {
    hide Get, AddBase, Image, Count, Minus;
    AddBaseAt(Image(out, HEADER, l.bssStart - HEADER, l.bssEnd - HEADER), Places(rels, l.textOffset), base,
              p - l.textOffset);
    CountPlaces(rels, l.textOffset, p);
  }

  lemma WordWritten(out: seq<Byte>, elf: seq<Byte>, rels: seq<Word>, l: Layout, s: Section, p: Word)
    requires SectionOk(elf, s, l) && SectionWritten(out, elf, rels, l, s) && HEADER <= l.bssStart <= l.bssEnd
    requires l.textOffset % 4 == 0 && p % 4 == 0 && In(p, s) && p + 4 <= s.offset + s.size
    ensures Get(Image(out, HEADER, l.bssStart - HEADER, l.bssEnd - HEADER), p - l.textOffset)
         == if p in rels then Minus(Get(elf, p), l.textOffset) else Get(elf, p)
  {
    hide Minus, ByteOf;
    var image := Image(out, HEADER, l.bssStart - HEADER, l.bssEnd - HEADER);
    assert In(p, s) && In(p + 1, s) && In(p + 2, s) && In(p + 3, s);
    assert (p + 1) % 4 == 1 && (p + 2) % 4 == 2 && (p + 3) % 4 == 3;
    BytesOfWord(Minus(Get(elf, p), l.textOffset));
  }

  /** Every word of a data section: its original value, with the text offset exchanged for the load address where it
      is relocated. */
  lemma RelocationComposes(out: seq<Byte>, elf: seq<Byte>, sections: seq<Section>, rels: seq<Word>, l: Layout,
                           base: Word, i: nat, p: Word)
    requires InputOk(elf, sections, rels, l) && IsBflt(out, elf, sections, rels, l)
    requires i < |sections| && sections[i].rewritten && In(p, sections[i]) && p % 4 == 0
    ensures Fit(rels, l) && l.textOffset <= p && p + 4 <= |elf| && p + 4 - l.textOffset <= |Loaded(out, rels, l, base)|
    ensures Get(Loaded(out, rels, l, base), p - l.textOffset)
         == ((if p in rels then Minus(Get(elf, p), l.textOffset) else Get(elf, p))
             + Count(rels, p) * base) % 0x1_0000_0000
  {
    hide Get, AddBase, HeaderWritten, TableWritten, SectionWritten, Image, Count, Minus, Patched, Loaded;
    var s := sections[i];
    assert SectionOk(elf, s, l) && SectionWritten(out, elf, rels, l, s);
    PlacesFit(elf, sections, rels, l);
    assert p + 4 <= s.offset + s.size;
    LoadedWord(out, rels, l, base, p);
    WordWritten(out, elf, rels, l, s, p);
  }

  lemma CoveredInside(elf: seq<Byte>, s: Section, r: Word, l: Layout, p: nat)
    requires SectionOk(elf, s, l) && s.rewritten && In(r, s) && r % 4 == 0 && Covers(r, p)
    ensures In(p, s)
  {}

  /** No relocated word reaches into a section that is only copied. */
  lemma NotCovered(elf: seq<Byte>, sections: seq<Section>, rels: seq<Word>, l: Layout, i: nat, p: nat, k: nat)
    requires InputOk(elf, sections, rels, l) && i < |sections| && !sections[i].rewritten && In(p, sections[i])
             && k < |rels|
    ensures !Covers(rels[k], p)
  {
    hide SectionOk, In, Covers;
    assert InData(rels[k], sections);
    var j :| 0 <= j < |sections| && sections[j].rewritten && In(rels[k], sections[j]);
    if Covers(rels[k], p) {
      CoveredInside(elf, sections[j], rels[k], l, p);
    }
  }

  lemma NotPatched(elf: seq<Byte>, sections: seq<Section>, rels: seq<Word>, l: Layout, i: nat, p: nat)
    requires InputOk(elf, sections, rels, l) && i < |sections| && !sections[i].rewritten && In(p, sections[i])
    ensures p < |elf| && l.textOffset <= p && Patched(elf, rels, l.textOffset, p) == elf[p]
  {
    assert SectionOk(elf, sections[i], l);
    var w := p - p % 4;
    if w in rels {
      var k :| 0 <= k < |rels| && rels[k] == w;
      NotCovered(elf, sections, rels, l, i, p, k);
    }
  }

  /** Text and read-only data are loaded as they are. */
  lemma CopiedUnchanged(out: seq<Byte>, elf: seq<Byte>, sections: seq<Section>, rels: seq<Word>, l: Layout, base: Word,
                        i: nat, p: nat)
    requires InputOk(elf, sections, rels, l) && IsBflt(out, elf, sections, rels, l)
    requires i < |sections| && !sections[i].rewritten && In(p, sections[i])
    ensures Fit(rels, l) && l.textOffset <= p < |elf| && p - l.textOffset < |Loaded(out, rels, l, base)|
    ensures Loaded(out, rels, l, base)[p - l.textOffset] == elf[p]
  {
    hide AddBase, HeaderWritten, TableWritten, Patched, Minus;
    PlacesFit(elf, sections, rels, l);
    NotPatched(elf, sections, rels, l, i, p);
    assert SectionOk(elf, sections[i], l) && SectionWritten(out, elf, rels, l, sections[i]);
    forall k | 0 <= k < |rels| ensures !Covers(Places(rels, l.textOffset)[k], p - l.textOffset) {
      NotCovered(elf, sections, rels, l, i, p, k);
      RelocationInside(elf, sections, rels, l, k);
    }
    AddBaseElsewhere(Image(out, HEADER, l.bssStart - HEADER, l.bssEnd - HEADER), Places(rels, l.textOffset), base,
                     p - l.textOffset);
  }

  /** With each relocation listed once, the load address is added once. */
  lemma {:induction false} DistinctCount(rels: seq<Word>, p: Word)
    requires forall i, j :: 0 <= i < j < |rels| ==> rels[i] != rels[j]
    ensures Count(rels, p) == if p in rels then 1 else 0
  {
    if rels != [] {
      DistinctCount(rels[..|rels| - 1], p);
      assert rels == rels[..|rels| - 1] + [rels[|rels| - 1]];
    }
  }

  // ---------------------------------------------------------------- the converter

  /** Writing at a place of a file, which grows and is filled with zeros as needed. */
  function Overwrite(d: seq<Byte>, pos: nat, bs: seq<Byte>): (r: seq<Byte>)
    ensures |r| == if bs != [] && pos + |bs| > |d| then pos + |bs| else |d|
    ensures forall k :: 0 <= k < |d| && !(pos <= k < pos + |bs|) ==> r[k] == d[k]
    ensures forall k :: pos <= k < pos + |bs| ==> r[k] == bs[k - pos]
  {
    if bs == [] then d
    else
      var e := if pos + |bs| > |d| then d + seq(pos + |bs| - |d|, _ => 0) else d;
      e[..pos] + bs + e[pos + |bs|..]
  }

  lemma OverwriteTwice(d: seq<Byte>, pos: nat, a: seq<Byte>, b: seq<Byte>)
    ensures Overwrite(Overwrite(d, pos, a), pos + |a|, b) == Overwrite(d, pos, a + b)
  {
    if a == [] {
      assert a + b == b;
    } else if b == [] {
      assert a + b == a;
    }
  }

  /** The bytes of a section as the file is to hold them. */
  function PatchedRange(elf: seq<Byte>, rels: seq<Word>, textOffset: Word, at: nat, n: nat): (r: seq<Byte>)
    requires at + n <= |elf|
    ensures |r| == n
  {
    seq<Byte>(n, k requires 0 <= k < n => Patched(elf, rels, textOffset, at + k))
  }

  lemma Shifted(w: nat, rest: nat, b: Byte)
    requires w == b + 0x100 * rest
    ensures w / 0x100 == rest && w % 0x100 == b
  {}

  lemma OfBytes(b0: Byte, b1: Byte, b2: Byte, b3: Byte)
    ensures Little(FromBytes(b0, b1, b2, b3)) == [b0, b1, b2, b3]
  {
    var w3: nat := b3;
    var w2: nat := b2 + 0x100 * w3;
    var w1: nat := b1 + 0x100 * w2;
    var w0: nat := b0 + 0x100 * w1;
    assert FromBytes(b0, b1, b2, b3) == w0;
    Shifted(w2, w3, b2);
    Shifted(w1, w2, b1);
    Shifted(w0, w1, b0);
  }

  lemma LittleOfGet(s: seq<Byte>, p: nat)
    requires p + 4 <= |s|
    ensures Little(Get(s, p)) == s[p..p + 4]
  {
    OfBytes(s[p], s[p + 1], s[p + 2], s[p + 3]);
  }

  lemma PatchedWord(elf: seq<Byte>, rels: seq<Word>, textOffset: Word, at: Word, n: nat)
    requires at % 4 == 0 && n % 4 == 0 && at + n + 4 <= |elf| && at + n < 0x1_0000_0000
    ensures PatchedRange(elf, rels, textOffset, at, n + 4)
         == PatchedRange(elf, rels, textOffset, at, n)
            + Little(if (at + n) in rels then Minus(Get(elf, at + n), textOffset) else Get(elf, at + n))
  {
    hide Minus, ByteOf, FromBytes;
    var p := at + n;
    assert (p + 1) % 4 == 1 && (p + 2) % 4 == 2 && (p + 3) % 4 == 3;
    LittleOfGet(elf, p);
    var w := if p in rels then Minus(Get(elf, p), textOffset) else Get(elf, p);
    assert Patched(elf, rels, textOffset, p) == Little(w)[0] && Patched(elf, rels, textOffset, p + 1) == Little(w)[1];
    assert Patched(elf, rels, textOffset, p + 2) == Little(w)[2]
           && Patched(elf, rels, textOffset, p + 3) == Little(w)[3];
  }

  class OutFile {
    var data: seq<Byte>
    var pos: nat

    constructor ()
      ensures data == [] && pos == 0
    {
      data, pos := [], 0;
    }

    method Seek(p: nat)
      modifies this`pos
      ensures pos == p
    {
      pos := p;
    }

    method Write(bs: seq<Byte>)
      modifies this
      ensures data == Overwrite(old(data), old(pos), bs) && pos == old(pos) + |bs|
      ensures old(pos) == |old(data)| ==> data == old(data) + bs
    {
      data := Overwrite(data, pos, bs);
      pos := pos + |bs|;
    }
  }

  method IsRelocated(addr: nat, relocations: seq<Word>) returns (found: bool)
    ensures found <==> addr in relocations
  {
    var i := 0;
    while i < |relocations|
      invariant 0 <= i <= |relocations| && addr !in relocations[..i]
    {
      if addr == relocations[i] { return true; }
      i := i + 1;
    }
    return false;
  }

  lemma OverwriteNothing(d: seq<Byte>, pos: nat)
    ensures Overwrite(d, pos, []) == d
  {}

  method WriteData(out: OutFile, elf: seq<Byte>, s: Section, relocations: seq<Word>, l: Layout)
    requires SectionOk(elf, s, l) && s.rewritten && l.bssStart < 0x1_0000_0000 && |elf| < 0x1_0000_0000
    modifies out
    ensures out.data == Overwrite(old(out.data), HEADER + s.offset - l.textOffset,
                                  PatchedRange(elf, relocations, l.textOffset, s.offset, s.size))
  {
    hide Get, Minus, Overwrite;
    var offset, size, outputAddr := s.offset, s.size, HEADER + s.offset - l.textOffset;
    out.Seek(outputAddr);
    var j := 0;
    OverwriteNothing(out.data, outputAddr);
    while j < size
      invariant 0 <= j <= size && j % 4 == 0 && out.pos == outputAddr + j
      invariant out.data
                == Overwrite(old(out.data), outputAddr, PatchedRange(elf, relocations, l.textOffset, offset, j))
    {
      var temp := Get(elf, offset + j);
      var relocated := IsRelocated(offset + j, relocations);
      if relocated { temp := Minus(temp, l.textOffset); }
      PatchedWord(elf, relocations, l.textOffset, offset, j);
      OverwriteTwice(old(out.data), outputAddr, PatchedRange(elf, relocations, l.textOffset, offset, j), Little(temp));
      out.Write(Little(temp));
      j := j + 4;
    }
  }

  /** Words in network order, one after the other. */
  function BigWords(ws: seq<Word>): (r: seq<Byte>)
    ensures |r| == 4 * |ws|
  {
    seq<Byte>(4 * |ws|, x requires 0 <= x < 4 * |ws| => ByteOf(ws[x / 4], 3 - x % 4))
  }

  lemma BigWordsAppend(ws: seq<Word>, w: Word)
    ensures BigWords(ws + [w]) == BigWords(ws) + Big(w)
  {
    hide ByteOf;
    var n, a := 4 * |ws|, BigWords(ws + [w]);
    assert a[n] == ByteOf(w, 3) && a[n + 1] == ByteOf(w, 2) && a[n + 2] == ByteOf(w, 1) && a[n + 3] == ByteOf(w, 0);
    assert a[..n] == BigWords(ws);
    assert a[n..] == Big(w);
  }

  lemma NoWords()
    ensures BigWords([]) == []
  {}

  method WriteTable(out: OutFile, relocStart: nat, relocations: seq<Word>, l: Layout)
    modifies out
    ensures out.data == Overwrite(old(out.data), relocStart, BigWords(Places(relocations, l.textOffset)))
  {
    hide Minus, Overwrite, Big, BigWords;
    out.Seek(relocStart);
    var j := 0;
    OverwriteNothing(out.data, relocStart);
    assert Places(relocations[..0], l.textOffset) == [];
    NoWords();
    while j < |relocations|
      invariant 0 <= j <= |relocations| && out.pos == relocStart + 4 * j
      invariant out.data == Overwrite(old(out.data), relocStart, BigWords(Places(relocations[..j], l.textOffset)))
    {
      var address := Minus(relocations[j], l.textOffset);
      assert Places(relocations[..j + 1], l.textOffset) == Places(relocations[..j], l.textOffset) + [address];
      BigWordsAppend(Places(relocations[..j], l.textOffset), address);
      OverwriteTwice(old(out.data), relocStart, BigWords(Places(relocations[..j], l.textOffset)), Big(address));
      out.Write(Big(address));
      j := j + 1;
    }
    assert relocations[..j] == relocations;
  }

  /** Words written at a place of a file are read back there. */
  lemma BigWordsReadBack(out: seq<Byte>, at: nat, ws: seq<Word>)
    requires at + 4 * |ws| <= |out|
    requires forall y :: at <= y < at + 4 * |ws| ==> out[y] == BigWords(ws)[y - at]
    ensures forall k :: 0 <= k < |ws| ==> at + 4 * k + 4 <= |out| && GetBig(out, at + 4 * k) == ws[k]
  {
    hide ByteOf, FromBytes;
    forall k | 0 <= k < |ws| ensures at + 4 * k + 4 <= |out| && GetBig(out, at + 4 * k) == ws[k] {
      var x := 4 * k;
      assert out[at + x] == ByteOf(ws[k], 3) && out[at + (x + 1)] == ByteOf(ws[k], 2);
      assert out[at + (x + 2)] == ByteOf(ws[k], 1) && out[at + (x + 3)] == ByteOf(ws[k], 0);
      BytesOfWord(ws[k]);
    }
  }

  const MAGIC: seq<Byte> := [98, 70, 76, 84]

  function HeaderWords(rels: nat, l: Layout): (r: seq<Word>)
    requires rels < 0x1_0000_0000 && l.bssStart < 0x1_0000_0000 && l.bssEnd < 0x1_0000_0000
    ensures |r| == 8
  {
    [4, HEADER, l.dataStart, l.bssStart, l.bssEnd, 8192, if rels > 0 then l.bssStart else 0, rels]
  }

  function Flags(flags: Word, n: nat): (r: seq<Byte>)
    ensures |r| == 4 * n
  {
    seq<Byte>(4 * n, x requires 0 <= x < 4 * n => ByteOf(flags, x % 4))
  }

  /** The header: everything in network order but the flags, which also fill the rest. */
  function HeaderBytes(rels: nat, l: Layout): (r: seq<Byte>)
    requires rels < 0x1_0000_0000 && l.bssStart < 0x1_0000_0000 && l.bssEnd < 0x1_0000_0000
    ensures |r| == HEADER
  {
    MAGIC + BigWords(HeaderWords(rels, l)) + Flags(l.flags, 7)
  }

  lemma FlagsNext(flags: Word, n: nat)
    ensures Flags(flags, n + 1) == Flags(flags, n) + Little(flags)
  {
    hide ByteOf;
    var a := Flags(flags, n + 1);
    assert a[4 * n + 0] == ByteOf(flags, 0) && a[4 * n + 1] == ByteOf(flags, 1);
    assert a[4 * n + 2] == ByteOf(flags, 2) && a[4 * n + 3] == ByteOf(flags, 3);
    assert a[..4 * n] == Flags(flags, n) && a[4 * n..] == Little(flags);
  }

  lemma HeaderReadsBack(out: seq<Byte>, rels: seq<Word>, l: Layout)
    requires |rels| < 0x1_0000_0000 && |out| >= HEADER && out[..HEADER] == HeaderBytes(|rels|, l)
    ensures HeaderWritten(out, rels, l)
  {
    hide GetBig, BigWords, Flags;
    var ws := HeaderWords(|rels|, l);
    assert forall y :: 4 <= y < 36 ==> out[y] == out[..HEADER][y] == BigWords(ws)[y - 4];
    assert out[..4] == out[..HEADER][..4];
    BigWordsReadBack(out, 4, ws);
    assert GetBig(out, 4 + 4 * 1) == ws[1] && GetBig(out, 4 + 4 * 2) == ws[2] && GetBig(out, 4 + 4 * 3) == ws[3];
    assert GetBig(out, 4 + 4 * 4) == ws[4] && GetBig(out, 4 + 4 * 5) == ws[5] && GetBig(out, 4 + 4 * 6) == ws[6];
    assert GetBig(out, 4 + 4 * 7) == ws[7];
  }

  /** htonl and write. */
  method WriteBig(out: OutFile, w: Word, ghost ws: seq<Word>) returns (ghost now: seq<Word>)
    requires out.data == MAGIC + BigWords(ws) && out.pos == |out.data|
    modifies out
    ensures now == ws + [w] && out.data == MAGIC + BigWords(now) && out.pos == |out.data|
  {
    hide Big, Overwrite, BigWords;
    BigWordsAppend(ws, w);
    assert MAGIC + (BigWords(ws) + Big(w)) == MAGIC + BigWords(ws) + Big(w);
    out.Write(Big(w));
    now := ws + [w];
  }

  lemma NoFlags(flags: Word)
    ensures Flags(flags, 0) == []
  {}

  lemma ConcatAssociates(a: seq<Byte>, b: seq<Byte>, c: seq<Byte>)
    ensures a + b + c == a + (b + c)
  {}

  /** The flags, and the same again as padding. */
  method WriteFlags(out: OutFile, flags: Word)
    requires out.pos == |out.data|
    modifies out
    ensures out.data == old(out.data) + Flags(flags, 7)
  {
    hide Little, Overwrite, Flags;
    NoFlags(flags);
    ghost var was := out.data;
    out.Write(Little(flags));
    FlagsNext(flags, 0);
    assert Flags(flags, 1) == Little(flags);
    var i := 0;
    while i < 6
      invariant 0 <= i <= 6 && out.pos == |out.data| && out.data == was + Flags(flags, i + 1)
    {
      FlagsNext(flags, i + 1);
      ConcatAssociates(was, Flags(flags, i + 1), Little(flags));
      out.Write(Little(flags));
      i := i + 1;
    }
  }

  method WriteHeader(out: OutFile, relocCount: nat, l: Layout)
    requires out.data == [] && out.pos == 0
    requires relocCount < 0x1_0000_0000 && l.bssStart < 0x1_0000_0000 && l.bssEnd < 0x1_0000_0000
    modifies out
    ensures out.data == HeaderBytes(relocCount, l)
  {
    hide BigWords, Little, Overwrite;
    var textStart, relocStart := HEADER, 0;
    if relocCount > 0 { relocStart := l.bssStart; }
    out.Write(MAGIC);
    NoWords();
    ghost var ws: seq<Word> := [];
    ws := WriteBig(out, 4, ws);
    ws := WriteBig(out, textStart, ws);
    ws := WriteBig(out, l.dataStart, ws);
    ws := WriteBig(out, l.bssStart, ws);
    ws := WriteBig(out, l.bssEnd, ws);
    ws := WriteBig(out, 8192, ws);
    ws := WriteBig(out, relocStart, ws);
    ws := WriteBig(out, relocCount, ws);
    assert ws == HeaderWords(relocCount, l);
    WriteFlags(out, l.flags);
  }

  lemma CopiedRange(elf: seq<Byte>, sections: seq<Section>, rels: seq<Word>, l: Layout, i: nat)
    requires InputOk(elf, sections, rels, l) && i < |sections| && !sections[i].rewritten
    ensures var s := sections[i];
            s.offset + s.size <= |elf|
            && elf[s.offset..s.offset + s.size] == PatchedRange(elf, rels, l.textOffset, s.offset, s.size)
  {
    hide Patched;
    var s := sections[i];
    assert SectionOk(elf, s, l);
    forall p | s.offset <= p < s.offset + s.size ensures p < |elf| && Patched(elf, rels, l.textOffset, p) == elf[p] {
      NotPatched(elf, sections, rels, l, i, p);
    }
  }

  /** A section stays written when another place of the file is written. */
  lemma SectionKept(was: seq<Byte>, now: seq<Byte>, elf: seq<Byte>, rels: seq<Word>, l: Layout, s: Section,
                    other: Section)
    requires SectionOk(elf, s, l) && SectionOk(elf, other, l) && SectionWritten(was, elf, rels, l, s)
    requires forall p :: In(p, s) ==> !In(p, other)
    requires now
             == Overwrite(was, HEADER + other.offset - l.textOffset,
                          PatchedRange(elf, rels, l.textOffset, other.offset, other.size))
    ensures SectionWritten(now, elf, rels, l, s)
  {
    hide Patched;
    forall p | In(p, s)
      ensures HEADER + p - l.textOffset < |now|
              && now[HEADER + p - l.textOffset] == Patched(elf, rels, l.textOffset, p) {
      assert !In(p, other);
      assert was[HEADER + p - l.textOffset] == Patched(elf, rels, l.textOffset, p);
    }
  }

  lemma SectionItself(was: seq<Byte>, now: seq<Byte>, elf: seq<Byte>, rels: seq<Word>, l: Layout, s: Section)
    requires SectionOk(elf, s, l)
    requires now
             == Overwrite(was, HEADER + s.offset - l.textOffset,
                          PatchedRange(elf, rels, l.textOffset, s.offset, s.size))
    ensures SectionWritten(now, elf, rels, l, s)
  {
    hide Patched;
  }

  lemma SectionsApart(elf: seq<Byte>, sections: seq<Section>, rels: seq<Word>, l: Layout, k: nat, i: nat)
    requires InputOk(elf, sections, rels, l) && k < i < |sections|
    ensures forall p :: In(p, sections[k]) ==> !In(p, sections[i])
  {}

  /** The header does not change when what is behind it does. */
  lemma HeaderKept(was: seq<Byte>, now: seq<Byte>, rels: seq<Word>, l: Layout)
    requires HeaderWritten(was, rels, l) && |now| >= HEADER
    requires forall k :: 0 <= k < HEADER ==> now[k] == was[k]
    ensures HeaderWritten(now, rels, l)
  {
    assert now[..4] == was[..4];
  }

  /** Writing one section keeps the header and the other sections. */
  lemma SectionDone(was: seq<Byte>, now: seq<Byte>, elf: seq<Byte>, sections: seq<Section>, rels: seq<Word>, l: Layout,
                    i: nat)
    requires InputOk(elf, sections, rels, l) && i < |sections| && HeaderWritten(was, rels, l)
    requires SectionOk(elf, sections[i], l)
    requires now == Overwrite(was, HEADER + sections[i].offset - l.textOffset,
                              PatchedRange(elf, rels, l.textOffset, sections[i].offset, sections[i].size))
    requires forall k :: 0 <= k < i ==> SectionOk(elf, sections[k], l) && SectionWritten(was, elf, rels, l, sections[k])
    ensures HeaderWritten(now, rels, l)
    ensures forall k :: 0 <= k <= i ==> SectionOk(elf, sections[k], l) && SectionWritten(now, elf, rels, l, sections[k])
  {
    hide GetBig, Patched, InputOk, SectionWritten, PatchedRange;
    HeaderKept(was, now, rels, l);
    forall k | 0 <= k <= i ensures SectionWritten(now, elf, rels, l, sections[k]) {
      if k < i {
        SectionsApart(elf, sections, rels, l, k, i);
        SectionKept(was, now, elf, rels, l, sections[k], sections[i]);
      } else {
        SectionItself(was, now, elf, rels, l, sections[i]);
      }
    }
  }

  lemma TableDone(was: seq<Byte>, now: seq<Byte>, elf: seq<Byte>, sections: seq<Section>, rels: seq<Word>, l: Layout)
    requires InputOk(elf, sections, rels, l) && HeaderWritten(was, rels, l) && rels != []
    requires forall k :: 0 <= k < |sections| ==>
               SectionOk(elf, sections[k], l) && SectionWritten(was, elf, rels, l, sections[k])
    requires now == Overwrite(was, l.bssStart, BigWords(Places(rels, l.textOffset)))
    ensures IsBflt(now, elf, sections, rels, l)
  {
    hide Patched, BigWords, GetBig, Minus;
    HeaderKept(was, now, rels, l);
    BigWordsReadBack(now, l.bssStart, Places(rels, l.textOffset));
  }

  /** Writes the whole file. */
  method Convert(elf: seq<Byte>, sections: seq<Section>, relocations: seq<Word>, l: Layout) returns (out: OutFile)
    requires InputOk(elf, sections, relocations, l) && |elf| < 0x1_0000_0000
    ensures fresh(out) && IsBflt(out.data, elf, sections, relocations, l)
  {
    hide HeaderWritten, SectionWritten, HeaderBytes, Overwrite;
    out := new OutFile();
    WriteHeader(out, |relocations|, l);
    HeaderReadsBack(out.data, relocations, l);
    var i := 0;
    while i < |sections|
      invariant 0 <= i <= |sections|
      invariant HeaderWritten(out.data, relocations, l)
      invariant forall k :: 0 <= k < i ==> SectionWritten(out.data, elf, relocations, l, sections[k])
    {
      var s := sections[i];
      assert SectionOk(elf, s, l);
      ghost var was := out.data;
      if s.rewritten {
        WriteData(out, elf, s, relocations, l);
      } else {
        out.Seek(HEADER + s.offset - l.textOffset);
        CopiedRange(elf, sections, relocations, l, i);
        out.Write(elf[s.offset..s.offset + s.size]);
      }
      SectionDone(was, out.data, elf, sections, relocations, l, i);
      i := i + 1;
    }
    if |relocations| > 0 {
      ghost var was := out.data;
      WriteTable(out, l.bssStart, relocations, l);
      TableDone(was, out.data, elf, sections, relocations, l);
    }
  }

  /** Byte orders: a word in memory has its low-order byte first, in the file's header and table its high-order one. */
  lemma ByteOrders()
    ensures Little(0x1122_3344) == [0x44, 0x33, 0x22, 0x11] && Big(0x1122_3344) == [0x11, 0x22, 0x33, 0x44]
    ensures Get([0x44, 0x33, 0x22, 0x11], 0) == 0x1122_3344 && GetBig([0x11, 0x22, 0x33, 0x44], 0) == 0x1122_3344
  {}

  lemma EightWords(ws: seq<Word>)
    requires |ws| == 8
    ensures BigWords(ws)
            == Big(ws[0]) + Big(ws[1]) + Big(ws[2]) + Big(ws[3]) + Big(ws[4]) + Big(ws[5]) + Big(ws[6]) + Big(ws[7])
  {
    hide ByteOf, BigWords, Big;
    NoWords();
    assert ws[..0] == [] && ws[..8] == ws;
    forall k: nat | k < 8 ensures BigWords(ws[..k + 1]) == BigWords(ws[..k]) + Big(ws[k]) {
      assert ws[..k + 1] == ws[..k] + [ws[k]];
      BigWordsAppend(ws[..k], ws[k]);
    }
    var none: seq<Byte> := [];
    assert none + Big(ws[0]) == Big(ws[0]);
  }

  lemma BigExamples()
    ensures Big(4) == [0, 0, 0, 4] && Big(0x40) == [0, 0, 0, 0x40] && Big(0x240) == [0, 0, 2, 0x40]
    ensures Big(0x340) == [0, 0, 3, 0x40] && Big(0x440) == [0, 0, 4, 0x40] && Big(8192) == [0, 0, 0x20, 0]
            && Big(2) == [0, 0, 0, 2]
  {}

  /** The header of a program of 0x300 bytes on disk, with its data from 0x240 on, 0x100 bytes of bss, and two
      relocations. */
  lemma HeaderExample()
    ensures HeaderBytes(2, Layout(0x8000, 0x240, 0x340, 0x440, 1))
         == [0x62, 0x46, 0x4c, 0x54] + [0, 0, 0, 4] + [0, 0, 0, 0x40] + [0, 0, 2, 0x40] + [0, 0, 3, 0x40]
           + [0, 0, 4, 0x40]
            + [0, 0, 0x20, 0] + [0, 0, 3, 0x40] + [0, 0, 0, 2] + Flags(1, 7)
    ensures Flags(1, 1) == [1, 0, 0, 0]
  {
    hide BigWords, Big;
    var ws := [4, 0x40, 0x240, 0x340, 0x440, 8192, 0x340, 2];
    assert HeaderWords(2, Layout(0x8000, 0x240, 0x340, 0x440, 1)) == ws;
    EightWords(ws);
    BigExamples();
  }
}
