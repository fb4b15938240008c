/** The disk image: written by tools/imagemaker/ImageMaker.c, loaded by boot/BootLoader.asm, read by loader/32bit.c. */
module BootImage {
  import opened Common
  import opened Words

  const SECTOR_SIZE: nat := 512
  const BOOT_SECTOR_LOADED_ADDRESS: nat := 0x7C00
  const PROTECTED_START_ADDRESS: nat := 0x10000
  const PAGE_TABLE_START_ADDRESS: nat := 0x100000
  const IA32_START_ADDRESS: nat := 0x600000
  const IA32_END_ADDRESS: nat := 0xA00000
  /** sizeof(BootInfo): eight bytes of signature, two unsigned shorts. */
  const BOOT_INFO_SIZE: nat := 12
  /** The sectors real mode can load before the segment register wraps. */
  const LOADABLE_SECTORS: nat := 1920

  /** "SKHUBOOT". */
  const SIGNATURE: seq<Byte> := [0x53, 0x4B, 0x48, 0x55, 0x42, 0x4F, 0x4F, 0x54]

  // ---------------------------------------------------------------- files as sectors

  function Padding(size: nat): (n: nat)
    ensures n < SECTOR_SIZE && (size + n) % SECTOR_SIZE == 0
  {
    PaddingFits(size);
    (SECTOR_SIZE - size % SECTOR_SIZE) % SECTOR_SIZE
  }

  lemma PaddingFits(size: nat)
    ensures var n := (SECTOR_SIZE - size % SECTOR_SIZE) % SECTOR_SIZE; n < SECTOR_SIZE && (size + n) % SECTOR_SIZE == 0
  {
    var q, r := size / SECTOR_SIZE, size % SECTOR_SIZE;
    if r == 0 {
      assert size == SECTOR_SIZE * q;
    } else {
      DivMod(SECTOR_SIZE - r, SECTOR_SIZE, 0, SECTOR_SIZE - r);
      DivMod(size + (SECTOR_SIZE - r), SECTOR_SIZE, q + 1, 0);
    }
  }

  /** A file padded to whole sectors. */
  function Padded(file: seq<Byte>): seq<Byte> { file + Zeros(Padding(|file|)) }

  function Sectors(file: seq<Byte>): nat { (|file| + Padding(|file|)) / SECTOR_SIZE }

  lemma PaddedSize(file: seq<Byte>)
    ensures |Padded(file)| == SECTOR_SIZE * Sectors(file)
    ensures 0 < |file| <= SECTOR_SIZE ==> Sectors(file) == 1
  {
  }

  /** From byte `at` on stands the file, from its first byte to its last, and behind it zeros up to the next whole sector:
    * `n` sectors in all, and no more than it takes. */
  ghost predicate Stands(s: seq<Byte>, at: nat, file: seq<Byte>, n: nat) {
    && |file| <= SECTOR_SIZE * n < |file| + SECTOR_SIZE && at + SECTOR_SIZE * n <= |s|
    && (forall k :: at <= k < at + |file| ==> s[k] == file[k - at])
    && (forall k :: at + |file| <= k < at + SECTOR_SIZE * n ==> s[k] == 0)
  }

  /** A padded file stands wherever its bytes are. */
  lemma PaddedStands(s: seq<Byte>, at: nat, file: seq<Byte>)
    requires at + |Padded(file)| <= |s| && s[at..at + |Padded(file)|] == Padded(file)
    ensures Stands(s, at, file, Sectors(file))
  {
    PaddedSize(file);
    var x := s[at..at + |Padded(file)|];
    assert forall k :: at <= k < at + |x| ==> s[k] == x[k - at];
  }

  // ---------------------------------------------------------------- the BootInfo block

  predicate MatchAt(s: seq<Byte>, i: nat) { i + BOOT_INFO_SIZE <= |s| && s[i..i + 8] == SIGNATURE }

  /** The signature stands at `i` and nowhere before. */
  ghost predicate FirstMatch(s: seq<Byte>, i: nat) { MatchAt(s, i) && forall k: nat :: k < i ==> !MatchAt(s, k) }

  ghost predicate OnlyMatch(s: seq<Byte>, i: nat) { MatchAt(s, i) && forall k: nat :: k != i ==> !MatchAt(s, k) }

  /** An unsigned short, little-endian. */
  function Short(n: nat): (b: seq<Byte>)
    ensures |b| == 2
  {
    [n % 256, n / 256 % 256]
  }

  function ReadShort(s: seq<Byte>, at: nat): (n: nat)
    requires at + 2 <= |s|
    ensures n < 0x10000
  {
    (s[at] as int) + 256 * (s[at + 1] as int)
  }

  /** The counts written behind the signature at `i`. */
  function Patched(s: seq<Byte>, i: nat, total: nat, loader: nat): (r: seq<Byte>)
    requires i + BOOT_INFO_SIZE <= |s|
    ensures |r| == |s|
  {
    s[..i + 8] + Short(total) + Short(loader) + s[i + 12..]
  }

  /** The counts are there, cut to 16 bits, and the block stays the first match: a match that began in the four
    * patched bytes would begin behind the signature. */
  lemma PatchKeepsFirst(s: seq<Byte>, i: nat, total: nat, loader: nat)
    requires OnlyMatch(s, i)
    ensures var p := Patched(s, i, total, loader);
            FirstMatch(p, i) && ReadShort(p, i + 8) == total % 0x10000 && ReadShort(p, i + 10) == loader % 0x10000
    ensures OutsideCounts(s, Patched(s, i, total, loader), i)
  {
    PatchesCounts(s, i, total, loader);
    hide Patched;
    PatchedMatches(s, i, total, loader);
    PatchedCounts(s, i, total, loader);
  }

  /** Nothing but the two counts of the block at `i` differs. */
  ghost predicate OutsideCounts(s: seq<Byte>, p: seq<Byte>, i: nat) {
    |p| == |s| && forall k :: 0 <= k < |s| && !(i + 8 <= k < i + 12) ==> p[k] == s[k]
  }

  lemma PatchesCounts(s: seq<Byte>, i: nat, total: nat, loader: nat)
    requires i + BOOT_INFO_SIZE <= |s|
    ensures OutsideCounts(s, Patched(s, i, total, loader), i)
  {
    hide Short;
  }

  lemma PatchedCounts(s: seq<Byte>, i: nat, total: nat, loader: nat)
    requires i + BOOT_INFO_SIZE <= |s|
    ensures var p := Patched(s, i, total, loader); ReadShort(p, i + 8) == total % 0x10000 && ReadShort(p, i + 10) == loader % 0x10000
  {
    hide Short;
    ShortReads(total);
    ShortReads(loader);
  }

  lemma ShortReads(n: nat)
    ensures (Short(n)[0] as int) + 256 * (Short(n)[1] as int) == n % 0x10000
  {
    DivMod(n, 0x10000, n / 256 / 256, n % 256 + 256 * (n / 256 % 256));
  }

  lemma PatchedMatches(s: seq<Byte>, i: nat, total: nat, loader: nat)
    requires OnlyMatch(s, i)
    ensures FirstMatch(Patched(s, i, total, loader), i)
  {
    hide Short;
    var p := Patched(s, i, total, loader);
    assert p[i..i + 8] == s[i..i + 8];
    forall k: nat | k < i ensures !MatchAt(p, k) {
      assert !MatchAt(s, k);
      assert p[k..k + 8] == s[k..k + 8];
    }
  }

  // ---------------------------------------------------------------- ImageMaker.c

  datatype Outcome = Done | BootSectorShort | SignatureTwice | SignatureMissing

  class ImageMaker {
    /** The image file. */
    var image: seq<Byte>

    constructor ()
      ensures image == []
    {
      image := [];
    }

    /** Appends a file, 512 bytes at a time, and pads it to whole sectors. */
    method AppendFile(src: seq<Byte>) returns (sectorCount: nat)
      modifies this
      ensures image == old(image) + Padded(src) && sectorCount == Sectors(src)
      ensures old(image) <= image && |image| == |old(image)| + SECTOR_SIZE * sectorCount
      ensures Stands(image, |old(image)|, src, sectorCount)
    {
      var size := 0;
      while true
        invariant size <= |src| && image == old(image) + src[..size]
        decreases |src| - size
      {
        var readCount := if |src| - size < SECTOR_SIZE then |src| - size else SECTOR_SIZE;
        if readCount <= 0 {
          break;
        }
        assert src[..size] + src[size..size + readCount] == src[..size + readCount];
        image := image + src[size..size + readCount];
        size := size + readCount;
      }
      assert src[..size] == src;
      var padding := (SECTOR_SIZE - size % SECTOR_SIZE) % SECTOR_SIZE;
      for i := 0 to padding
        invariant image == old(image) + src + Zeros(i)
      {
        assert Zeros(i) + [0] == Zeros(i + 1);
        image := image + [0];
      }
      assert old(image) + src + Zeros(padding) == old(image) + Padded(src);
      PaddedSize(src);
      PaddedStands(image, |old(image)|, src);
      sectorCount := (size + padding) / SECTOR_SIZE;
    }

    /** Writes the counts into the one BootInfo block of the boot sector, or leaves the image alone. */
    method WriteBootInfo(totalSectorCount: nat, loaderSectorCount: nat) returns (r: Outcome)
      modifies this
      ensures r == BootSectorShort <==> |old(image)| < SECTOR_SIZE
      ensures r == SignatureMissing <==> old(|image|) >= SECTOR_SIZE && forall k: nat :: !MatchAt(old(image)[..SECTOR_SIZE], k)
      ensures r == Done <==> old(|image|) >= SECTOR_SIZE && exists i: nat :: OnlyMatch(old(image)[..SECTOR_SIZE], i)
      ensures r != Done ==> image == old(image)
      ensures r == Done ==> forall i: nat :: MatchAt(old(image)[..SECTOR_SIZE], i) ==>
                image == Patched(old(image), i, totalSectorCount % 0x10000, loaderSectorCount % 0x10000)
      ensures r == Done ==> forall i: nat :: MatchAt(old(image)[..SECTOR_SIZE], i) ==> OutsideCounts(old(image), image, i)
    {
      if |image| < SECTOR_SIZE {
        return BootSectorShort;
      }
      var bootSector := image[..SECTOR_SIZE];
      var offset := -1;
      for i := 0 to SECTOR_SIZE - BOOT_INFO_SIZE + 1
        invariant offset == -1 ==> forall k: nat :: k < i ==> !MatchAt(bootSector, k)
        invariant offset != -1 ==> 0 <= offset < i && MatchAt(bootSector, offset)
        invariant offset != -1 ==> forall k: nat :: k < i && k != offset ==> !MatchAt(bootSector, k)
      {
        if bootSector[i..i + 8] == SIGNATURE {
          if offset != -1 {
            assert MatchAt(bootSector, offset) && MatchAt(bootSector, i);
            return SignatureTwice;
          }
          offset := i;
        }
      }
      if offset == -1 {
        return SignatureMissing;
      }
      assert OnlyMatch(bootSector, offset);
      PatchesCounts(image, offset, totalSectorCount % 0x10000, loaderSectorCount % 0x10000);
      image := Patched(image, offset, totalSectorCount % 0x10000, loaderSectorCount % 0x10000);
      return Done;
    }

    /** main: boot sector, loader and kernel one after the other, then the counts. */
    method MakeImage(boot: seq<Byte>, loader: seq<Byte>, kernel: seq<Byte>) returns (r: Outcome)
      requires image == []
      modifies this
      ensures r == Done <==> |Plain(boot, loader, kernel)| >= SECTOR_SIZE && HasOneBlock(Plain(boot, loader, kernel)[..SECTOR_SIZE])
      ensures if r == Done then IsImage(image, boot, loader, kernel) else image == Plain(boot, loader, kernel)
    {
      hide Padded, Sectors, MatchAt, OnlyMatch, Patched;
      var bootSectorCount := AppendFile(boot);
      var loaderSectorCount := AppendFile(loader);
      var kernelSectorCount := AppendFile(kernel);
      assert image == Plain(boot, loader, kernel);
      r := WriteBootInfo(loaderSectorCount + kernelSectorCount, loaderSectorCount);
      if r == Done {
        ImageMade(image, boot, loader, kernel);
      }
    }
  }

  ghost predicate HasOneBlock(s: seq<Byte>) { exists i: nat :: OnlyMatch(s, i) }

  /** The three files in whole sectors, before the counts are filled in. */
  function Plain(boot: seq<Byte>, loader: seq<Byte>, kernel: seq<Byte>): seq<Byte> { Padded(boot) + Padded(loader) + Padded(kernel) }

  /** What ImageMaker makes of a boot sector, a loader and a kernel. */
  ghost predicate IsImage(image: seq<Byte>, boot: seq<Byte>, loader: seq<Byte>, kernel: seq<Byte>) {
    var plain := Plain(boot, loader, kernel);
    && |plain| >= SECTOR_SIZE
    && exists i: nat ::
         && OnlyMatch(plain[..SECTOR_SIZE], i)
         && image == Patched(plain, i, (Sectors(loader) + Sectors(kernel)) % 0x10000, Sectors(loader) % 0x10000)
  }

  lemma ImageMade(image: seq<Byte>, boot: seq<Byte>, loader: seq<Byte>, kernel: seq<Byte>)
    requires |Plain(boot, loader, kernel)| >= SECTOR_SIZE && HasOneBlock(Plain(boot, loader, kernel)[..SECTOR_SIZE])
    requires forall i: nat :: MatchAt(Plain(boot, loader, kernel)[..SECTOR_SIZE], i) ==>
               image == Patched(Plain(boot, loader, kernel), i,
                                (Sectors(loader) + Sectors(kernel)) % 0x10000, Sectors(loader) % 0x10000)
    ensures IsImage(image, boot, loader, kernel)
  {
    hide Padded, Sectors, Patched;
    var i: nat :| OnlyMatch(Plain(boot, loader, kernel)[..SECTOR_SIZE], i);
    assert MatchAt(Plain(boot, loader, kernel)[..SECTOR_SIZE], i);
  }

  // ---------------------------------------------------------------- what an image says

  /** Patching the first sector of a longer image patches that sector alone. */
  lemma PatchedFirst(s: seq<Byte>, rest: seq<Byte>, i: nat, total: nat, loader: nat)
    requires i + BOOT_INFO_SIZE <= |s|
    ensures Patched(s + rest, i, total, loader) == Patched(s, i, total, loader) + rest
  {
  }

  /** The first block of a boot sector holds these counts. */
  ghost predicate Says(s: seq<Byte>, total: nat, loader: nat) {
    && (exists i: nat :: FirstMatch(s, i))
    && forall i: nat :: FirstMatch(s, i) ==> ReadShort(s, i + 8) == total && ReadShort(s, i + 10) == loader
  }

  /** The image is a boot sector whose first block holds the counts, cut to 16 bits, then the loader's sectors, then the
    * kernel's. */
  lemma ImageSays(image: seq<Byte>, boot: seq<Byte>, loader: seq<Byte>, kernel: seq<Byte>)
    requires IsImage(image, boot, loader, kernel) && 0 < |boot| <= SECTOR_SIZE
    ensures |image| == SECTOR_SIZE * (1 + Sectors(loader) + Sectors(kernel))
    ensures image[SECTOR_SIZE..] == Padded(loader) + Padded(kernel)
    ensures Says(image[..SECTOR_SIZE], (Sectors(loader) + Sectors(kernel)) % 0x10000, Sectors(loader) % 0x10000)
    ensures Stands(image, SECTOR_SIZE, loader, Sectors(loader))
    ensures Stands(image, SECTOR_SIZE * (1 + Sectors(loader)), kernel, Sectors(kernel))
    ensures exists b: seq<Byte>, i: nat :: Stands(b, 0, boot, 1) && OnlyMatch(b, i) && OutsideCounts(b, image[..SECTOR_SIZE], i)
  {
    hide Padded, Sectors, Patched, Plain, Says, FirstMatch, OutsideCounts, Stands;
    PaddedSize(boot);
    PaddedSize(loader);
    PaddedSize(kernel);
    var b, rest := Padded(boot), Padded(loader) + Padded(kernel);
    var total, l := (Sectors(loader) + Sectors(kernel)) % 0x10000, Sectors(loader) % 0x10000;
    PlainIs(boot, loader, kernel);
    var i: nat :| OnlyMatch(b, i) && image == Patched(b + rest, i, total, l);
    PatchedFirst(b, rest, i, total, l);
    PatchedSays(b, i, total, l);
    assert image[..SECTOR_SIZE] == Patched(b, i, total, l) && image[SECTOR_SIZE..] == rest;
    BootStands(boot);
    PatchKeepsFirst(b, i, total, l);
    RestStands(image, loader, kernel);
  }

  lemma BootStands(boot: seq<Byte>)
    requires 0 < |boot| <= SECTOR_SIZE
    ensures Stands(Padded(boot), 0, boot, 1)
  {
    PaddedSize(boot);
    assert Padded(boot)[0..0 + |Padded(boot)|] == Padded(boot);
    PaddedStands(Padded(boot), 0, boot);
  }

  lemma Middle(pre: seq<Byte>, x: seq<Byte>, post: seq<Byte>)
    ensures (pre + x + post)[|pre|..|pre| + |x|] == x
  {
  }

  lemma MiddleStands(pre: seq<Byte>, file: seq<Byte>, post: seq<Byte>)
    ensures Stands(pre + Padded(file) + post, |pre|, file, Sectors(file))
  {
    hide Padded, Sectors, Stands;
    Middle(pre, Padded(file), post);
    PaddedStands(pre + Padded(file) + post, |pre|, file);
  }

  lemma RestStands(image: seq<Byte>, loader: seq<Byte>, kernel: seq<Byte>)
    requires |image| >= SECTOR_SIZE && image[SECTOR_SIZE..] == Padded(loader) + Padded(kernel)
    ensures Stands(image, SECTOR_SIZE, loader, Sectors(loader))
    ensures Stands(image, SECTOR_SIZE * (1 + Sectors(loader)), kernel, Sectors(kernel))
  {
    hide Padded, Sectors, Stands;
    var first := image[..SECTOR_SIZE];
    PaddedSize(loader);
    MiddleStands(first, loader, Padded(kernel));
    MiddleStands(first + Padded(loader), kernel, []);
    assert image == first + image[SECTOR_SIZE..];
    assert first + (Padded(loader) + Padded(kernel)) == first + Padded(loader) + Padded(kernel);
    assert first + Padded(loader) + Padded(kernel) + [] == first + Padded(loader) + Padded(kernel);
  }

  lemma PlainIs(boot: seq<Byte>, loader: seq<Byte>, kernel: seq<Byte>)
    requires |Padded(boot)| == SECTOR_SIZE
    ensures Plain(boot, loader, kernel) == Padded(boot) + (Padded(loader) + Padded(kernel))
    ensures Plain(boot, loader, kernel)[..SECTOR_SIZE] == Padded(boot)
  {
    hide Padded;
  }

  /** The patched block is the first match, and says what was put there. */
  lemma PatchedSays(b: seq<Byte>, i: nat, total: nat, l: nat)
    requires |b| == SECTOR_SIZE && OnlyMatch(b, i) && total < 0x10000 && l < 0x10000
    ensures Says(Patched(b, i, total, l), total, l)
  {
    hide Patched;
    PatchKeepsFirst(b, i, total, l);
    var p := Patched(b, i, total, l);
    forall k: nat | FirstMatch(p, k) ensures k == i {
      SameFirst(p, i, k);
    }
  }

  /** The image tells its reader the true counts exactly if loader and kernel together have fewer than 65536 sectors. */
  lemma CountsFit(image: seq<Byte>, boot: seq<Byte>, loader: seq<Byte>, kernel: seq<Byte>)
    requires IsImage(image, boot, loader, kernel) && 0 < |boot| <= SECTOR_SIZE
    ensures |image| >= SECTOR_SIZE
    ensures Says(image[..SECTOR_SIZE], Sectors(loader) + Sectors(kernel), Sectors(loader)) <==>
              Sectors(loader) + Sectors(kernel) < 0x10000
  {
    hide IsImage, Padded, Sectors, MatchAt, Says;
    ImageSays(image, boot, loader, kernel);
    SaidOnce(image[..SECTOR_SIZE], (Sectors(loader) + Sectors(kernel)) % 0x10000, Sectors(loader) % 0x10000);
  }

  lemma SameFirst(s: seq<Byte>, i: nat, k: nat)
    requires FirstMatch(s, i) && FirstMatch(s, k)
    ensures i == k
  {
  }

  // ---------------------------------------------------------------- BootLoader.asm and 32bit.c

  /** Where the boot loader puts the `i`-th sector: segment registers hold 16 bits. */
  function SectorAddress(i: nat): nat { (0x1000 + 0x20 * i) % 0x10000 * 16 }

  /** Sectors follow one another from 0x10000 up, exactly the first 1920 of them; the next ones go to address 0 and on,
    * and the 1983rd on top of the boot sector that is loading them. */
  lemma SectorPlace(i: nat)
    ensures SectorAddress(i) == PROTECTED_START_ADDRESS + SECTOR_SIZE * i <==> i < LOADABLE_SECTORS
    ensures SectorAddress(i) == BOOT_SECTOR_LOADED_ADDRESS <==> i % 2048 == 1982
  {
  }

  /** The machine the loader runs on: memory by bytes. */
  class Machine {
    const mem: array<Byte>

    constructor (size: nat)
      requires size >= IA32_END_ADDRESS
      ensures mem.Length == size && fresh(mem)
    {
      mem := new Byte[size](_ => 0);
    }

    method Store(at: nat, x: seq<Byte>)
      requires at + |x| <= mem.Length
      modifies mem
      ensures forall k :: 0 <= k < mem.Length ==> mem[k] == if at <= k < at + |x| then x[k - at] else old(mem[k])
    {
      forall k | 0 <= k < |x| {
        mem[at + k] := x[k];
      }
    }

    /** ReadDisk: the sectors behind the boot sector, one at a time, segment and sector number counting on. */
    method ReadDisk(image: seq<Byte>, total: nat)
      requires mem.Length >= IA32_END_ADDRESS && total <= LOADABLE_SECTORS && SECTOR_SIZE * (1 + total) <= |image|
      modifies mem
      ensures Loaded(mem[..], image, total)
      ensures forall k :: 0 <= k < PROTECTED_START_ADDRESS ==> mem[k] == old(mem[k])
    {
      var di, segment, lba := total, 0x1000, 1;
      while di != 0
        invariant 0 <= di <= total && lba == 1 + (total - di) && segment == (0x1000 + 0x20 * (total - di)) % 0x10000
        invariant Loaded(mem[..], image, lba - 1)
        invariant forall k :: 0 <= k < PROTECTED_START_ADDRESS ==> mem[k] == old(mem[k])
        decreases di
      {
        di := di - 1;
        SectorPlace(lba - 1);
        Store(segment * 16, image[SECTOR_SIZE * lba..SECTOR_SIZE * (lba + 1)]);
        segment := (segment + 0x20) % 0x10000;
        lba := lba + 1;
      }
    }

    /** What runs between loading and copying: memory from 1 MB up is cleared and page tables are built there. */
    method ClearAndPage(contents: seq<Byte>)
      requires mem.Length >= IA32_END_ADDRESS && |contents| == IA32_END_ADDRESS - PAGE_TABLE_START_ADDRESS
      modifies mem
      ensures forall k :: 0 <= k < PAGE_TABLE_START_ADDRESS ==> mem[k] == old(mem[k])
      ensures mem[PAGE_TABLE_START_ADDRESS..IA32_END_ADDRESS] == contents
    {
      Store(PAGE_TABLE_START_ADDRESS, contents);
    }

    /** The boot sector, where the BIOS left it. */
    ghost function BootSector(): (s: seq<Byte>)
      requires mem.Length >= IA32_END_ADDRESS
      reads mem
    {
      mem[BOOT_SECTOR_LOADED_ADDRESS..BOOT_SECTOR_LOADED_ADDRESS + SECTOR_SIZE]
    }

    /** The first block of the boot sector, by its offset; -1 for the null pointer. */
    method FindBootInfo() returns (offset: int)
      requires mem.Length >= IA32_END_ADDRESS
      ensures offset == -1 ==> forall i: nat :: !MatchAt(BootSector(), i)
      ensures offset != -1 ==> offset >= 0 && FirstMatch(BootSector(), offset)
    {
      ghost var s := BootSector();
      for i := 0 to SECTOR_SIZE - BOOT_INFO_SIZE + 1
        invariant forall k: nat :: k < i ==> !MatchAt(s, k)
      {
        var match_ := true;
        for j := 0 to 8
          invariant match_ && forall k :: 0 <= k < j ==> s[i + k] == SIGNATURE[k]
        {
          if mem[BOOT_SECTOR_LOADED_ADDRESS + i + j] != SIGNATURE[j] {
            match_ := false;
            break;
          }
        }
        assert match_ <==> s[i..i + 8] == SIGNATURE;
        if match_ {
          return i;
        }
      }
      return -1;
    }

    /** An unsigned short in memory. */
    function ShortAt(at: nat): nat
      requires at + 2 <= mem.Length
      reads mem
    {
      (mem[at] as int) + 256 * (mem[at + 1] as int)
    }

    /** The loop of copyIA32ModeImage: `count` ints, upwards. */
    method CopyWords(src0: nat, dest0: nat, count: int)
      requires src0 + 4 * count <= dest0 && dest0 + 4 * count <= mem.Length && dest0 <= mem.Length
      modifies mem
      ensures Copied(mem[..], old(mem[..]), src0, dest0, 4 * count)
      ensures forall k :: 0 <= k < dest0 ==> mem[k] == old(mem[k])
    {
      var src, dest, i := src0, dest0, 0;
      while i < count
        invariant 0 <= i && (i == 0 || i <= count) && src == src0 + 4 * i && dest == dest0 + 4 * i
        invariant forall k :: 0 <= k < dest0 ==> mem[k] == old(mem[k])
        invariant Copied(mem[..], old(mem[..]), src0, dest0, 4 * i)
      {
        Store(dest, mem[src..src + 4]);
        dest := dest + 4;
        src := src + 4;
        i := i + 1;
      }
    }

    /** Copies the kernel's sectors to 6 MB; false where the original prints and hangs. */
    method CopyIA32ModeImage() returns (ok: bool)
      requires mem.Length >= IA32_END_ADDRESS
      requires forall total: nat, loader: nat :: Says(BootSector(), total, loader) ==> total <= LOADABLE_SECTORS
      modifies mem
      ensures ok <==> exists i: nat :: FirstMatch(old(BootSector()), i)
      ensures forall k :: 0 <= k < IA32_START_ADDRESS ==> mem[k] == old(mem[k])
      ensures forall total: nat, loader: nat :: Says(old(BootSector()), total, loader) ==>
                KernelCopied(mem[..], old(mem[..]), total, loader)
    {
      hide MatchAt, Copied, Says;
      var bootInfo := FindBootInfo();
      if bootInfo == -1 {
        NothingSaid(BootSector());
        return false;
      }
      BlockSays(BootSector(), bootInfo);
      var totalSectorCount := ShortAt(BOOT_SECTOR_LOADED_ADDRESS + bootInfo + 8);
      var loaderSectorCount := ShortAt(BOOT_SECTOR_LOADED_ADDRESS + bootInfo + 10);
      assert Says(BootSector(), totalSectorCount, loaderSectorCount);
      CopyWords(PROTECTED_START_ADDRESS + loaderSectorCount * SECTOR_SIZE, IA32_START_ADDRESS,
                SECTOR_SIZE * (totalSectorCount - loaderSectorCount) / 4);
      return true;
    }
  }

  lemma NothingSaid(s: seq<Byte>)
    requires forall i: nat :: !MatchAt(s, i)
    ensures forall total: nat, loader: nat :: !Says(s, total, loader)
    ensures forall i: nat :: !FirstMatch(s, i)
  {
  }

  /** A boot sector says one thing. */
  lemma BlockSays(s: seq<Byte>, i: nat)
    requires FirstMatch(s, i)
    ensures i + BOOT_INFO_SIZE <= |s| && Says(s, ReadShort(s, i + 8), ReadShort(s, i + 10))
    ensures forall total: nat, loader: nat :: Says(s, total, loader) ==> total == ReadShort(s, i + 8) && loader == ReadShort(s, i + 10)
  {
    hide MatchAt;
    MatchFits(s, i);
    forall k: nat | FirstMatch(s, k) ensures k == i {
      SameFirst(s, i, k);
    }
  }

  lemma MatchFits(s: seq<Byte>, i: nat)
    requires MatchAt(s, i)
    ensures i + BOOT_INFO_SIZE <= |s|
  {
  }

  /** The `n` bytes at `to` are those that were at `from`. */
  ghost predicate Copied(m: seq<Byte>, before: seq<Byte>, from: nat, to: nat, n: int) {
    && (n > 0 ==> from <= to) && to + n <= |m| == |before|
    && forall k :: to <= k < to + n ==> m[k] == before[from - to + k]
  }

  /** The sectors behind the loader's, out of those at 64 KB, stand at 6 MB. */
  ghost predicate KernelCopied(m: seq<Byte>, before: seq<Byte>, total: nat, loader: nat) {
    loader <= total ==>
      Copied(m, before, PROTECTED_START_ADDRESS + SECTOR_SIZE * loader, IA32_START_ADDRESS, SECTOR_SIZE * (total - loader))
  }

  /** The first `total` sectors behind the boot sector stand at 64 KB. */
  ghost predicate Loaded(m: seq<Byte>, image: seq<Byte>, total: nat) {
    && PROTECTED_START_ADDRESS + SECTOR_SIZE * total <= |m| && SECTOR_SIZE * (1 + total) <= |image|
    && forall k :: SECTOR_SIZE <= k < SECTOR_SIZE * (1 + total) ==> m[PROTECTED_START_ADDRESS - SECTOR_SIZE + k] == image[k]
  }

  /** From files to a running kernel: the image ImageMaker makes, its first sector put at 0x7C00 by the BIOS, the rest
    * loaded by the boot loader with the count in its own block, memory above 1 MB cleared and paged, and the copy of
    * copyIA32ModeImage. The kernel file, padded with zeros to whole sectors, ends up at 6 MB. */
  method Boot(machine: Machine, image: seq<Byte>, tables: seq<Byte>,
              ghost boot: seq<Byte>, ghost loader: seq<Byte>, ghost kernel: seq<Byte>)
    returns (ok: bool)
    requires machine.mem.Length >= IA32_END_ADDRESS && |tables| == IA32_END_ADDRESS - PAGE_TABLE_START_ADDRESS
    requires IsImage(image, boot, loader, kernel) && 0 < |boot| <= SECTOR_SIZE
    requires Sectors(loader) + Sectors(kernel) <= LOADABLE_SECTORS
    modifies machine.mem
    ensures ok && Stands(machine.mem[..], IA32_START_ADDRESS, kernel, Sectors(kernel))
    ensures Stands(machine.mem[..], PROTECTED_START_ADDRESS, loader, Sectors(loader))
    ensures machine.mem[BOOT_SECTOR_LOADED_ADDRESS..BOOT_SECTOR_LOADED_ADDRESS + SECTOR_SIZE] == image[..SECTOR_SIZE]
  {
    hide IsImage, Padded, Sectors, Loaded, KernelCopied, MatchAt, Says, Stands;
    ImageSays(image, boot, loader, kernel);
    machine.Store(BOOT_SECTOR_LOADED_ADDRESS, image[..SECTOR_SIZE]);
    assert machine.BootSector() == image[..SECTOR_SIZE];
    SaidOnce(image[..SECTOR_SIZE], Sectors(loader) + Sectors(kernel), Sectors(loader));
    var bootInfo := machine.FindBootInfo();
    assert machine.BootSector() == image[..SECTOR_SIZE];
    ghost var i: nat :| MatchAt(image[..SECTOR_SIZE], i) && FirstMatch(image[..SECTOR_SIZE], i);
    assert bootInfo != -1;
    BlockSays(image[..SECTOR_SIZE], bootInfo);
    machine.ReadDisk(image, machine.ShortAt(BOOT_SECTOR_LOADED_ADDRESS + bootInfo + 8));
    assert machine.BootSector() == image[..SECTOR_SIZE];
    ghost var loaded := machine.mem[..];
    machine.ClearAndPage(tables);
    assert machine.BootSector() == image[..SECTOR_SIZE];
    ghost var before := machine.mem[..];
    ok := machine.CopyIA32ModeImage();
    KernelArrived(image, loader, kernel, loaded, before, machine.mem[..]);
    LoaderStays(image, loader, kernel, loaded, machine.mem[..]);
  }

  lemma SaidOnce(s: seq<Byte>, total: nat, loader: nat)
    requires Says(s, total, loader)
    ensures exists i: nat :: MatchAt(s, i) && FirstMatch(s, i)
    ensures forall t: nat, l: nat :: Says(s, t, l) ==> t == total && l == loader
  {
  }

  lemma KernelArrived(image: seq<Byte>, loader: seq<Byte>, kernel: seq<Byte>, loaded: seq<Byte>, before: seq<Byte>, after: seq<Byte>)
    requires |image| >= SECTOR_SIZE && image[SECTOR_SIZE..] == Padded(loader) + Padded(kernel)
    requires |image| == SECTOR_SIZE * (1 + Sectors(loader) + Sectors(kernel)) && Sectors(loader) + Sectors(kernel) <= LOADABLE_SECTORS
    requires |loaded| == |before| == |after| >= IA32_END_ADDRESS && Loaded(loaded, image, Sectors(loader) + Sectors(kernel))
    requires forall k :: 0 <= k < PAGE_TABLE_START_ADDRESS ==> before[k] == loaded[k]
    requires KernelCopied(after, before, Sectors(loader) + Sectors(kernel), Sectors(loader))
    ensures Stands(after, IA32_START_ADDRESS, kernel, Sectors(kernel))
  {
    hide Padded, Sectors, Stands;
    PaddedSize(loader);
    PaddedSize(kernel);
    var l, n := SECTOR_SIZE * Sectors(loader), |Padded(kernel)|;
    var rest := image[SECTOR_SIZE..];
    forall k | 0 <= k < n ensures after[IA32_START_ADDRESS + k] == Padded(kernel)[k] {
      var from := PROTECTED_START_ADDRESS + l + k;
      assert after[IA32_START_ADDRESS + k] == before[from] == loaded[from] == image[SECTOR_SIZE + l + k] == rest[l + k];
    }
    assert after[IA32_START_ADDRESS..IA32_START_ADDRESS + n] == Padded(kernel);
    PaddedStands(after, IA32_START_ADDRESS, kernel);
  }

  lemma LoaderStays(image: seq<Byte>, loader: seq<Byte>, kernel: seq<Byte>, loaded: seq<Byte>, after: seq<Byte>)
    requires |image| >= SECTOR_SIZE && image[SECTOR_SIZE..] == Padded(loader) + Padded(kernel)
    requires Sectors(loader) + Sectors(kernel) <= LOADABLE_SECTORS
    requires |loaded| == |after| >= IA32_END_ADDRESS && Loaded(loaded, image, Sectors(loader) + Sectors(kernel))
    requires forall k :: 0 <= k < PAGE_TABLE_START_ADDRESS ==> after[k] == loaded[k]
    ensures Stands(after, PROTECTED_START_ADDRESS, loader, Sectors(loader))
  {
    hide Padded, Sectors, Stands;
    PaddedSize(loader);
    var l := SECTOR_SIZE * Sectors(loader);
    var rest := image[SECTOR_SIZE..];
    forall k | 0 <= k < l ensures after[PROTECTED_START_ADDRESS + k] == Padded(loader)[k] {
      assert after[PROTECTED_START_ADDRESS + k] == loaded[PROTECTED_START_ADDRESS + k] == image[SECTOR_SIZE + k] == rest[k];
    }
    assert after[PROTECTED_START_ADDRESS..PROTECTED_START_ADDRESS + l] == Padded(loader);
    PaddedStands(after, PROTECTED_START_ADDRESS, loader);
  }
}
