/** The kernel's side of relocation: a bFLT file is read, placed in zeroed memory and patched there. */
module BfltLoader {
  import opened Relocation

  /** What the loader relies on: a whole header, and the relocation table inside the file. */
  predicate TableInFile(file: seq<Byte>) {
    && |file| >= HEADER
    && var count := GetBig(file, BFLT_RELOC_COUNT);
       count > 0 ==> var end := GetBig(file, BFLT_RELOC_START) as nat + 4 * count; end <= |file| && end <= 0x1_0000_0000
  }

  /** The places in the relocation table. */
  function TableOf(file: seq<Byte>): (r: seq<Word>)
    requires TableInFile(file)
    ensures |r| == GetBig(file, BFLT_RELOC_COUNT)
  {
    var start := GetBig(file, BFLT_RELOC_START);
    seq<Word>(GetBig(file, BFLT_RELOC_COUNT), k requires 0 <= k < GetBig(file, BFLT_RELOC_COUNT) =>
      GetBig(file, start as nat + 4 * k))
  }

  function OndiskSize(file: seq<Byte>): Word
    requires |file| >= HEADER
  {
    Minus(GetBig(file, BFLT_BSS_START), GetBig(file, BFLT_ENTRY))
  }

  function ProgramSize(file: seq<Byte>): Word
    requires |file| >= HEADER
  {
    Minus(GetBig(file, BFLT_BSS_END), GetBig(file, BFLT_ENTRY))
  }

  predicate Fits(places: seq<Word>, n: nat) {
    forall k :: 0 <= k < |places| ==> places[k] + 4 <= n
  }

  /** A file whose contents and relocations stay inside the memory it asks for. */
  predicate Loadable(file: seq<Byte>) {
    && TableInFile(file)
    && OndiskSize(file) <= ProgramSize(file)
    && Fits(TableOf(file), ProgramSize(file))
  }

  /** The memory of a program loaded at base: the file's contents, zeros, and base added wherever the table says. */
  function LoadedFile(file: seq<Byte>, base: Word): (r: seq<Byte>)
    requires Loadable(file)
    ensures |r| == ProgramSize(file)
  {
    AddBase(Image(file, GetBig(file, BFLT_ENTRY), OndiskSize(file), ProgramSize(file)), TableOf(file), base)
  }

  /** A file of the converter is loadable, and loading it is what the relocation theorems speak of. */
  lemma ConvertedLoads(file: seq<Byte>, elf: seq<Byte>, sections: seq<Section>, rels: seq<Word>, l: Layout, base: Word)
    requires InputOk(elf, sections, rels, l) && IsBflt(file, elf, sections, rels, l)
    ensures Loadable(file) && Fit(rels, l) && LoadedFile(file, base) == Loaded(file, rels, l, base)
  {
    hide AddBase, GetBig, InData, SectionOk, SectionWritten, Image;
    PlacesFit(elf, sections, rels, l);
    assert OndiskSize(file) == l.bssStart - HEADER && ProgramSize(file) == l.bssEnd - HEADER;
    assert TableOf(file) == Places(rels, l.textOffset);
  }

  /** The sizes and places that the header gives. */
  method BfltLoad(file: seq<Byte>)
    returns (stackSize: Word, textStart: Word, dataStart: Word, bssStart: Word, bssEnd: Word, ondiskSize: Word,
             programSize: Word)
    requires |file| >= HEADER
    ensures stackSize == GetBig(file, BFLT_STACK_SIZE) && textStart == GetBig(file, BFLT_ENTRY)
    ensures dataStart == GetBig(file, BFLT_DATA_START) && bssStart == GetBig(file, BFLT_BSS_START)
    ensures bssEnd == GetBig(file, BFLT_BSS_END)
    ensures ondiskSize == OndiskSize(file) && programSize == ProgramSize(file)
    ensures textStart <= bssStart <= bssEnd ==> ondiskSize == bssStart - textStart && programSize == bssEnd - textStart
  {
    hide GetBig;
    stackSize := GetBig(file, BFLT_STACK_SIZE);
    textStart := GetBig(file, BFLT_ENTRY);
    dataStart := GetBig(file, BFLT_DATA_START);
    bssStart := GetBig(file, BFLT_BSS_START);
    bssEnd := GetBig(file, BFLT_BSS_END);
    ondiskSize := Minus(bssStart, textStart);
    programSize := Minus(bssEnd, textStart);
  }

  method PutWord(image: array<Byte>, p: nat, w: Word)
    requires p + 4 <= image.Length
    modifies image
    ensures image[..] == Put(old(image[..]), p, w)
  {
    image[p], image[p + 1], image[p + 2], image[p + 3] := ByteOf(w, 0), ByteOf(w, 1), ByteOf(w, 2), ByteOf(w, 3);
    assert image[p..p + 4] == Little(w);
    assert image[..] == old(image[..])[..p] + image[p..p + 4] + old(image[..])[p + 4..];
  }

  lemma NothingAdded(image: seq<Byte>, base: Word)
    ensures AddBase(image, [], base) == image
  {}

  lemma MoreAdded(image: seq<Byte>, places: seq<Word>, base: Word, i: nat)
    requires i < |places| && Fits(places, |image|)
    ensures var r := AddBase(image, places[..i], base);
            AddBase(image, places[..i + 1], base) == Put(r, places[i], (Get(r, places[i]) + base) % 0x1_0000_0000)
  {
    assert places[..i + 1][..i] == places[..i];
  }

  /** Adds the load address to every word in the relocation table. */
  method BfltReloc(file: seq<Byte>, image: array<Byte>, base: Word)
    requires TableInFile(file) && Fits(TableOf(file), image.Length)
    modifies image
    ensures image[..] == AddBase(old(image[..]), TableOf(file), base)
  {
    hide GetBig, Get, Put, Minus, AddBase;
    ghost var places := TableOf(file);
    var relocCount := GetBig(file, BFLT_RELOC_COUNT);
    NothingAdded(image[..], base);
    if relocCount == 0 {
      assert places == [];
      return;
    }
    var relocStart := GetBig(file, BFLT_RELOC_START);
    var i := 0;
    while i < relocCount
      invariant 0 <= i <= relocCount
      invariant image[..] == AddBase(old(image[..]), places[..i], base)
    {
      var relocAddr := GetBig(file, relocStart as nat + i * 4);
      assert relocAddr == places[i];
      var oldVal := Get(image[..], relocAddr);
      var newVal := (oldVal + base) % 0x1_0000_0000;
      MoreAdded(old(image[..]), places, base, i);
      PutWord(image, relocAddr, newVal);
      i := i + 1;
    }
    assert places[..i] == places;
  }

  /** What execve does with a bFLT file and a zeroed block of memory at base. */
  method LoadBinary(file: seq<Byte>, base: Word) returns (image: array<Byte>)
    requires Loadable(file)
    ensures fresh(image) && image[..] == LoadedFile(file, base)
  {
    hide AddBase, GetBig, TableOf;
    var stackSize, textStart, dataStart, bssStart, bssEnd, ondiskSize, programSize := BfltLoad(file);
    image := new Byte[programSize](_ => 0);
    var i := 0;
    while i < ondiskSize && textStart + i < |file|
      invariant 0 <= i <= ondiskSize
      invariant i > 0 ==> textStart + i <= |file|
      invariant forall k :: 0 <= k < image.Length ==> image[k] == if k < i then file[textStart + k] else 0
    {
      image[i] := file[textStart + i];
      i := i + 1;
    }
    assert image[..] == Image(file, textStart, ondiskSize, programSize);
    BfltReloc(file, image, base);
  }

  ghost predicate WordRelocated(image: seq<Byte>, elf: seq<Byte>, rels: seq<Word>, l: Layout, base: Word, p: Word) {
    && l.textOffset <= p && p as int + 4 <= |elf| && p as int + 4 - l.textOffset <= |image|
    && Get(image, p - l.textOffset)
    == if p in rels then (Minus(Get(elf, p), l.textOffset) + base) % 0x1_0000_0000 else Get(elf, p)
  }

  /** Every word of the data sections, with the text offset exchanged for the load address where it is relocated. */
  ghost predicate WordsRelocated(image: seq<Byte>, elf: seq<Byte>, sections: seq<Section>, rels: seq<Word>, l: Layout,
                                 base: Word) {
    forall i: nat, p: Word :: i < |sections| && sections[i].rewritten && In(p, sections[i]) && p % 4 == 0 ==>
      WordRelocated(image, elf, rels, l, base, p)
  }

  ghost predicate ByteCopied(image: seq<Byte>, elf: seq<Byte>, l: Layout, p: nat) {
    l.textOffset <= p < |elf| && p - l.textOffset < |image| && image[p - l.textOffset] == elf[p]
  }

  ghost predicate BytesCopied(image: seq<Byte>, elf: seq<Byte>, sections: seq<Section>, l: Layout) {
    forall i: nat, p: nat :: i < |sections| && !sections[i].rewritten && In(p, sections[i]) ==>
        ByteCopied(image, elf, l, p)
  }

  lemma Small(w: Word)
    ensures w % 0x1_0000_0000 == w
  {}

  lemma LoadedWords(file: seq<Byte>, elf: seq<Byte>, sections: seq<Section>, rels: seq<Word>, l: Layout, base: Word)
    requires InputOk(elf, sections, rels, l) && IsBflt(file, elf, sections, rels, l)
    requires forall i, j :: 0 <= i < j < |rels| ==> rels[i] != rels[j]
    ensures Fit(rels, l) && WordsRelocated(Loaded(file, rels, l, base), elf, sections, rels, l, base)
  {
    hide IsBflt, Get, Loaded, Minus, Fit, Count, InputOk;
    PlacesFit(elf, sections, rels, l);
    forall i: nat, p: Word | i < |sections| && sections[i].rewritten && In(p, sections[i]) && p % 4 == 0
      ensures WordRelocated(Loaded(file, rels, l, base), elf, rels, l, base, p)
    {
      RelocationComposes(file, elf, sections, rels, l, base, i, p);
      DistinctCount(rels, p);
      if p !in rels { Small(Get(elf, p)); }
    }
  }

  /** Converting and then loading: what the memory holds does not depend on how the two are done. */
  method ConvertAndLoad(elf: seq<Byte>, sections: seq<Section>, rels: seq<Word>, l: Layout, base: Word)
    returns (image: array<Byte>)
    requires InputOk(elf, sections, rels, l) && |elf| < 0x1_0000_0000
    requires forall i, j :: 0 <= i < j < |rels| ==> rels[i] != rels[j]
    ensures image.Length == l.bssEnd - HEADER
    ensures WordsRelocated(image[..], elf, sections, rels, l, base)
    ensures BytesCopied(image[..], elf, sections, l)
  {
    hide IsBflt, Get, Loaded, Minus, Fit, WordsRelocated, InputOk, Loadable, LoadedFile;
    var file := Convert(elf, sections, rels, l);
    ConvertedLoads(file.data, elf, sections, rels, l, base);
    image := LoadBinary(file.data, base);
    LoadedWords(file.data, elf, sections, rels, l, base);
    forall i: nat, p: nat | i < |sections| && !sections[i].rewritten && In(p, sections[i])
      ensures ByteCopied(image[..], elf, l, p) {
      CopiedUnchanged(file.data, elf, sections, rels, l, base, i, p);
    }
  }
}
