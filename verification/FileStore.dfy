/** kernel/fs/FAT.c: the file system over its two static buffers and a disk read and written by sectors.
  * Proved against a map from file names to blocks and sizes. */
module FileStore {
  import opened Words
  import opened FatLayout
  import opened FatSession
  import opened FatRemount

  const SIGNATURE: nat := 0x19990125
  const BOOTLOADER_SIGNATURE: nat := 0x55AA
  const SECTORS_PER_CLUSTER: nat := 8
  const MAX_SECTORS: nat := 0x1000_0000   // 28-bit sector addresses

  /** A field of the boot sector. */
  function BootField(d: seq<Byte>, at: nat): nat
    requires at + 4 <= |d|
  {
    Dword(Get(d, at, 4))
  }

  /** What format leaves: a signed boot sector describing an empty volume. */
  ghost predicate Formatted(d: seq<Byte>) {
    && SECTOR_SIZE <= |d| <= SECTOR_SIZE * MAX_SECTORS
    && BootField(d, 420) == SIGNATURE && BootField(d, 432) == 1 && BootField(d, 436) == 1 + BootField(d, 428)
    && Sized(|d|, BootField(d, 428)) && Fs(VolumeOf(d, BootField(d, 428)), 0, map[])
  }

  /** The link sectors format sets aside: sized from data sectors where clusters would do. */
  function LinkSectors(sectors: nat): nat {
    var clusters := sectors / SECTORS_PER_CLUSTER;
    var dataSectors := sectors - 1 - (clusters + LINKS_PER_SECTOR - 1) / LINKS_PER_SECTOR;
    if dataSectors < 0 then 0 else (dataSectors + LINKS_PER_SECTOR - 1) / LINKS_PER_SECTOR
  }

  /** Ten sectors are enough for a root directory and a link for every cluster. */
  lemma LinkSectorsSized(sectors: nat)
    requires sectors >= 10
    ensures Sized(SECTOR_SIZE * sectors, LinkSectors(sectors))
  {
    var links := LinkSectors(sectors);
    var k := (sectors / SECTORS_PER_CLUSTER + LINKS_PER_SECTOR - 1) / LINKS_PER_SECTOR;
    assert LINKS_PER_SECTOR * k <= sectors / SECTORS_PER_CLUSTER + LINKS_PER_SECTOR - 1;
    assert LINKS_PER_SECTOR * links >= sectors - 1 - k;
    assert LINKS_PER_SECTOR * links <= sectors - 1 - k + LINKS_PER_SECTOR - 1;
    var n := Clusters(SECTOR_SIZE * sectors, links);
  }

  /** There is a link for every sector that is left when one link per cluster has been put aside, and no more link
    * sectors than that takes; all but one sector in 128, and nine more, are left for clusters. */
  ghost predicate LinksFor(sectors: nat, links: nat) {
    var left := sectors - 1 - (sectors / 8 + 127) / 128;
    && 128 * (links - 1) < left <= 128 * links
    && 1024 * Clusters(SECTOR_SIZE * sectors, links) >= 127 * sectors - 1149
  }

  lemma LinkSectorsExact(sectors: nat)
    requires sectors >= 10
    ensures LinksFor(sectors, LinkSectors(sectors))
  {
    var links := LinkSectors(sectors);
    var k := (sectors / SECTORS_PER_CLUSTER + LINKS_PER_SECTOR - 1) / LINKS_PER_SECTOR;
    assert links == (sectors - 1 - k + 127) / 128 && k >= 1;
    var n := Clusters(SECTOR_SIZE * sectors, links);
    assert SECTOR_SIZE * sectors < Data(links) + CLUSTER_SIZE * (n + 1);
    assert 8 * (n + 1) > sectors - 1 - links;
  }

  // ---------------------------------------------------------------- the operations on bytes

  lemma NameListed(v: Volume, best: nat, files: Files, i: nat, name: seq<Byte>)
    requires Fs(v, best, files) && i < |v.dir| && IsFile(v.dir[i], name)
    ensures name in files && v.dir[i].cluster < |v.blocks| && files[name] == File(v.blocks[v.dir[i].cluster], v.dir[i].size)
  {
    hide ValidName;
    assert EntryOk(v, best, v.dir[i]) && Listed(v.dir, name);
  }

  /** An entry that carries a file's name is that file's. */
  lemma EntryMatches(v: Volume, best: nat, files: Files, i: nat, name: seq<Byte>)
    requires Fs(v, best, files) && i < |v.dir| && v.dir[i].name == name
    ensures name in files <==> IsFile(v.dir[i], name)
    ensures v.dir[i].cluster == 0 <==> FreeMatch(v.dir, name)
  {
    hide ValidName;
    assert EntryOk(v, best, v.dir[i]);
    if name in files {
      var j :| 0 <= j < |v.dir| && IsFile(v.dir[j], name);
      assert EntryOk(v, best, v.dir[j]);
    }
    if v.dir[i].cluster != 0 {
      NameListed(v, best, files, i, name);
      ValidHasNoFreeMatch(v, best, files, name);
    }
  }

  lemma NameAbsent(v: Volume, best: nat, files: Files, name: seq<Byte>)
    requires Fs(v, best, files) && forall i :: 0 <= i < |v.dir| ==> !IsFile(v.dir[i], name)
    ensures name !in files
  {
  }

  /** What createFile's two writes leave in a session. */
  lemma AfterCreate(d: seq<Byte>, links: nat, best: nat, files: Files, i: nat, c: nat, name: seq<Byte>)
    requires Sized(|d|, links) && |d| <= SECTOR_SIZE * MAX_SECTORS && Fs(VolumeOf(d, links), best, files)
    requires i < MAX_FILECOUNT && VolumeOf(d, links).dir[i].cluster == 0
    requires Search(d, best, links) == Cluster(c) && c < Clusters(|d|, links) && ValidName(name) && name !in files
    ensures |name| < MAX_FILENAME
    ensures Fs(VolumeOf(FileCreated(d, links, i, c, name), links), c + 1, files[name := File(BlockAt(d, links, c), 0)])
  {
    hide InfoOf, Get, Put, Bytes, Split, Fs, Search, VolumeOf, FileCreated;
    SearchFresh(d, links, best, files);
    CreatedOnDisk(d, links, i, c, name);
    CreateFs(VolumeOf(d, links), best, files, i, c, name);
  }

  /** The root directory survives a change of the link table or of another cluster. */
  lemma DirectoryKept(d: seq<Byte>, links: nat, c: nat, n: nat)
    requires Sized(|d|, links) && c < LINKS_PER_SECTOR * links && n < DWORD
    ensures Get(WithLink(d, links, c, n), Data(links), CLUSTER_SIZE) == Get(d, Data(links), CLUSTER_SIZE)
  {
    hide Get, Put, Bytes, Split, Clusters;
    GetPutOther(d, SECTOR_SIZE + 4 * c, Bytes(n), Data(links), CLUSTER_SIZE);
  }

  lemma DirectoryBesideBlock(d: seq<Byte>, links: nat, c: nat, x: seq<Byte>)
    requires Sized(|d|, links) && 0 < c < Clusters(|d|, links) && |x| == CLUSTER_SIZE
    ensures Get(WithBlock(d, links, c, x), Data(links), CLUSTER_SIZE) == Get(d, Data(links), CLUSTER_SIZE)
  {
    hide Get, Put, Clusters;
    GetPutOther(d, Data(links) + CLUSTER_SIZE * c, x, Data(links), CLUSTER_SIZE);
  }

  /** deleteFile's two stores into entry `i` of the directory `b`. */
  lemma ErasedInside(b: seq<Byte>, i: nat)
    requires |b| == CLUSTER_SIZE && i < MAX_FILECOUNT
    ensures Put(Put(b, 32 * i + 28, Bytes(0)), 32 * i, [0xE5]) == Put(b, 32 * i, Erased(Get(b, 32 * i, 32)))
  {
    hide Get, Put, Bytes, Split;
    var e0, at := Get(b, 32 * i, 32), 32 * i;
    var e1 := Put(e0, 28, Bytes(0));
    PutInside(b, at, 32, 28, Bytes(0));
    GetPutSame(b, at, e1);
    PutInside(Put(b, at, e1), at, 32, 0, [0xE5]);
    PutTwice(b, at, e1, Put(e1, 0, [0xE5]));
  }

  lemma PutTwice(d: seq<Byte>, at: nat, x: seq<Byte>, y: seq<Byte>)
    requires at + |x| <= |d| && |x| == |y|
    ensures Put(Put(d, at, x), at, y) == Put(d, at, y)
  {
  }

  /** What deleteFile's two writes leave in a session, where the entry found carries `name`. */
  lemma AfterDelete(d: seq<Byte>, links: nat, best: nat, files: Files, i: nat, name: seq<Byte>)
    requires Sized(|d|, links) && Fs(VolumeOf(d, links), best, files)
    requires i < MAX_FILECOUNT && VolumeOf(d, links).dir[i].name == name
    ensures VolumeOf(d, links).dir[i].cluster < LINKS_PER_SECTOR * links
    ensures var v := VolumeOf(d, links); var w := VolumeOf(FileDeleted(d, links, i, v.dir[i].cluster), links);
            if FreeMatch(v.dir, name) then name !in files && w.link[0] == 0 else Fs(w, best, files - {name})
  {
    hide InfoOf, Get, Put, Bytes, Split, Fs, VolumeOf, FileDeleted, ValidName, FreeMatch;
    EntryMatches(VolumeOf(d, links), best, files, i, name);
    CleanEntry(VolumeOf(d, links), best, files, i);
    var f := DeletedOnDisk(d, links, i, VolumeOf(d, links).dir[i].cluster);
    DeleteExactly(VolumeOf(d, links), best, files, i, name, f);
    if VolumeOf(d, links).dir[i].cluster != 0 {
      DeleteFs(VolumeOf(d, links), best, files, i, f);
    }
  }

  lemma CleanEntry(v: Volume, best: nat, files: Files, i: nat)
    requires Fs(v, best, files) && i < |v.dir|
    ensures v.dir[i].cluster < |v.link|
  {
    hide ValidName, Apart, Holds, LinksOk;
    assert EntryOk(v, best, v.dir[i]);
  }

  /** Without its link the directory is not sound. */
  lemma DirectoryLost(v: Volume, best: nat, files: Files)
    requires |v.link| > 0 && v.link[0] == 0
    ensures !Fs(v, best, files)
  {
    hide EntryOk, Apart, Holds;
    assert !LinksOk(v);
  }

  /** writeFile's two writes: the file's cluster, then its entry. */
  lemma AfterWrite(d: seq<Byte>, links: nat, best: nat, files: Files, i: nat, name: seq<Byte>, x: seq<Byte>, size: int)
    requires Sized(|d|, links) && Fs(VolumeOf(d, links), best, files) && |x| == CLUSTER_SIZE
    requires i < MAX_FILECOUNT && IsFile(VolumeOf(d, links).dir[i], name) && -0x8000_0000 <= size < 0x8000_0000
    ensures 0 < VolumeOf(d, links).dir[i].cluster < Clusters(|d|, links)
    ensures var e := Put(Get(d, Data(links) + 32 * i, 32), 24, Bytes(size));
            var w := WithEntry(WithBlock(d, links, VolumeOf(d, links).dir[i].cluster, x), links, i, e);
            Fs(VolumeOf(w, links), best, files[name := File(x, size)])
  {
    hide InfoOf, Get, Put, Bytes, Split, Fs, VolumeOf, WithBlock, WithEntry;
    var v := VolumeOf(d, links);
    WriteFs(v, best, files, i, x, size);
    EntryResized(Get(d, Data(links) + 32 * i, 32), size);
    BlockPut(d, links, v.dir[i].cluster, x);
    assert InfoAt(d, links, i) == v.dir[i];
    DirPut(WithBlock(d, links, v.dir[i].cluster, x), links, i, Put(Get(d, Data(links) + 32 * i, 32), 24, Bytes(size)));
  }

  // ---------------------------------------------------------------- formatting

  ghost predicate ZeroRange(d: seq<Byte>, lo: nat, hi: nat) { hi <= |d| && forall k :: lo <= k < hi ==> d[k] == 0 }

  /** The boot sector format builds in whatever buffer512 held. */
  function BootSector(b: seq<Byte>, clusters: nat, links: nat): (r: seq<Byte>)
    requires |b| == SECTOR_SIZE
    ensures |r| == SECTOR_SIZE
  {
    var b1 := Put(Put(b, 440, [BOOTLOADER_SIGNATURE % 256, BOOTLOADER_SIGNATURE / 256]), 420, Bytes(SIGNATURE));
    Put(Put(Put(Put(b1, 424, Bytes(clusters)), 428, Bytes(links)), 432, Bytes(1)), 436, Bytes(1 + links))
  }

  lemma BootSectorReads(b: seq<Byte>, clusters: nat, links: nat)
    requires |b| == SECTOR_SIZE && 1 + links < DWORD
    ensures var r := BootSector(b, clusters, links);
            BootField(r, 420) == SIGNATURE && BootField(r, 428) == links && BootField(r, 432) == 1 && BootField(r, 436) == 1 + links
    ensures clusters < DWORD ==> BootField(BootSector(b, clusters, links), 424) == clusters
  {
    hide Put, Get, Bytes, Split, Dword;
    var b1 := Put(Put(b, 440, [BOOTLOADER_SIGNATURE % 256, BOOTLOADER_SIGNATURE / 256]), 420, Bytes(SIGNATURE));
    var b2 := Put(b1, 424, Bytes(clusters));
    var b3 := Put(b2, 428, Bytes(links));
    var b4 := Put(b3, 432, Bytes(1));
    GetPutSame(Put(b, 440, [BOOTLOADER_SIGNATURE % 256, BOOTLOADER_SIGNATURE / 256]), 420, Bytes(SIGNATURE));
    GetPutSame(b1, 424, Bytes(clusters));
    GetPutOther(b2, 428, Bytes(links), 424, 4);
    GetPutOther(b3, 432, Bytes(1), 424, 4);
    GetPutOther(b4, 436, Bytes(1 + links), 424, 4);
    if clusters < DWORD {
      DwordBytes(clusters);
    }
    GetPutSame(b2, 428, Bytes(links));
    GetPutSame(b3, 432, Bytes(1));
    GetPutSame(b4, 436, Bytes(1 + links));
    GetPutOther(b1, 424, Bytes(clusters), 420, 4);
    GetPutOther(b2, 428, Bytes(links), 420, 4);
    GetPutOther(b3, 432, Bytes(1), 420, 4);
    GetPutOther(b3, 432, Bytes(1), 428, 4);
    GetPutOther(b4, 436, Bytes(1 + links), 420, 4);
    GetPutOther(b4, 436, Bytes(1 + links), 428, 4);
    GetPutOther(b4, 436, Bytes(1 + links), 432, 4);
    DwordBytes(SIGNATURE);
    DwordBytes(links);
    DwordBytes(1);
    DwordBytes(1 + links);
  }

  ghost predicate ClearCode(b: seq<Byte>) { |b| == SECTOR_SIZE && forall k :: 0 <= k < 420 ==> b[k] == 0 }

  /** No code in the boot sector, and the mark 0x55AA behind its fields. */
  ghost predicate NoBootCode(d: seq<Byte>) { |d| >= SECTOR_SIZE && (forall k :: 0 <= k < 420 ==> d[k] == 0) && d[440] == 0xAA && d[441] == 0x55 }

  lemma BootSectorCode(b: seq<Byte>, clusters: nat, links: nat)
    requires ClearCode(b)
    ensures NoBootCode(BootSector(b, clusters, links))
  {
    hide Put, Bytes, Split;
    var b0 := Put(b, 440, [BOOTLOADER_SIGNATURE % 256, BOOTLOADER_SIGNATURE / 256]);
    var b1 := Put(b0, 420, Bytes(SIGNATURE));
    var b2 := Put(b1, 424, Bytes(clusters));
    var b3 := Put(b2, 428, Bytes(links));
    var b4 := Put(b3, 432, Bytes(1));
    PutAt(b, 440, [BOOTLOADER_SIGNATURE % 256, BOOTLOADER_SIGNATURE / 256]);
    PutAt(b0, 420, Bytes(SIGNATURE));
    PutAt(b1, 424, Bytes(clusters));
    PutAt(b2, 428, Bytes(links));
    PutAt(b3, 432, Bytes(1));
    PutAt(b4, 436, Bytes(1 + links));
  }

  lemma ZeroEntry(e: seq<Byte>)
    requires |e| == 32 && forall k :: 0 <= k < 32 ==> e[k] == 0
    ensures InfoOf(e) == Info([], 0, 0)
  {
    assert e[..MAX_FILENAME][0] == 0;
  }

  /** A cleared link table and directory, with only the first link set, store nothing. */
  lemma BlankDisk(d: seq<Byte>, links: nat)
    requires Sized(|d|, links) && Get(d, SECTOR_SIZE, 4) == Bytes(DWORD - 1)
    requires ZeroRange(d, SECTOR_SIZE + 4, Data(links) + CLUSTER_SIZE)
    ensures Blank(VolumeOf(d, links)) && Fs(VolumeOf(d, links), 0, map[])
  {
    hide Clusters, VolumeOf, InfoOf, Dword, Bytes, Split, Fs;
    var v := VolumeOf(d, links);
    forall i | 0 <= i < |v.dir| ensures v.dir[i] == Info([], 0, 0) {
      ZeroEntry(Get(d, Data(links) + 32 * i, 32));
      assert v.dir[i] == InfoAt(d, links, i);
    }
    forall c | 0 <= c < |v.link| ensures v.link[c] != 0 <==> c == 0 {
      assert v.link[c] == LinkAt(d, links, c);
      if c == 0 {
        DwordBytes(DWORD - 1);
      } else {
        ZeroDword(Get(d, SECTOR_SIZE + 4 * c, 4));
      }
    }
    BlankFs(v);
  }

  lemma ZeroDword(b: seq<Byte>)
    requires |b| == 4 && forall k :: 0 <= k < 4 ==> b[k] == 0
    ensures Dword(b) == 0
  {
  }

  /** The boot sector, a cleared region and the first link make a formatted disk. */
  lemma FormatDone(d: seq<Byte>, b: seq<Byte>, sectors: nat, clusters: nat)
    requires 10 <= sectors <= MAX_SECTORS && |d| == SECTOR_SIZE * sectors
    requires clusters < DWORD && ClearCode(b)
    requires Get(d, 0, SECTOR_SIZE) == BootSector(b, clusters, LinkSectors(sectors))
    requires Get(d, SECTOR_SIZE, 4) == Bytes(DWORD - 1)
    requires ZeroRange(d, SECTOR_SIZE + 4, Data(LinkSectors(sectors)) + CLUSTER_SIZE)
    ensures Formatted(d) && BootField(d, 428) == LinkSectors(sectors)
    ensures Sized(|d|, LinkSectors(sectors)) && Blank(VolumeOf(d, LinkSectors(sectors)))
    ensures Fs(VolumeOf(d, LinkSectors(sectors)), 0, map[])
    ensures LinksFor(sectors, LinkSectors(sectors)) && BootField(d, 424) == clusters && NoBootCode(d)
  {
    hide Blank, LinksFor, BootSector, Get, Bytes, Split, Dword, Fs, VolumeOf, ZeroRange, Clusters;
    var links := LinkSectors(sectors);
    LinkSectorsSized(sectors);
    BlankDisk(d, links);
    LinkSectorsExact(sectors);
    BootSectorReads(b, clusters, links);
    BootSectorCode(b, clusters, links);
    CodeInDisk(d);
    GetInside(d, 0, SECTOR_SIZE, 424, 4);
    GetInside(d, 0, SECTOR_SIZE, 420, 4);
    GetInside(d, 0, SECTOR_SIZE, 428, 4);
    GetInside(d, 0, SECTOR_SIZE, 432, 4);
    GetInside(d, 0, SECTOR_SIZE, 436, 4);
  }

  lemma CodeInDisk(d: seq<Byte>)
    requires |d| >= SECTOR_SIZE && NoBootCode(Get(d, 0, SECTOR_SIZE))
    ensures NoBootCode(d)
  {
    assert forall k :: 0 <= k < SECTOR_SIZE ==> Get(d, 0, SECTOR_SIZE)[k] == d[k];
  }

  /** One more stretch of zeros written behind `lo`..`hi`. */
  lemma MoreZeros(d: seq<Byte>, lo: nat, hi: nat, x: seq<Byte>)
    requires lo <= hi && hi + |x| <= |d| && ZeroRange(d, lo, hi) && forall k :: 0 <= k < |x| ==> x[k] == 0
    ensures ZeroRange(Put(d, hi, x), lo, hi + |x|) && Get(Put(d, hi, x), 0, lo) == Get(d, 0, lo)
  {
    GetPutOther(d, hi, x, 0, lo);
    PutAt(d, hi, x);
  }

  /** The last write of format: the first link sector again, now with the directory's link. */
  lemma FirstLinkSector(d: seq<Byte>, s: seq<Byte>, hi: nat)
    requires |s| == SECTOR_SIZE && s[..4] == Bytes(DWORD - 1) && forall k :: 4 <= k < SECTOR_SIZE ==> s[k] == 0
    requires 2 * SECTOR_SIZE <= hi && ZeroRange(d, SECTOR_SIZE, hi)
    ensures var w := Put(d, SECTOR_SIZE, s);
            Get(w, 0, SECTOR_SIZE) == Get(d, 0, SECTOR_SIZE) && Get(w, SECTOR_SIZE, 4) == Bytes(DWORD - 1) && ZeroRange(w, SECTOR_SIZE + 4, hi)
  {
    hide Bytes, Split;
    var w := Put(d, SECTOR_SIZE, s);
    GetPutOther(d, SECTOR_SIZE, s, 0, SECTOR_SIZE);
    PutAt(d, SECTOR_SIZE, s);
    assert Get(w, SECTOR_SIZE, 4) == s[..4];
  }

  /** Nothing differs from byte `at` on. */
  ghost predicate SameFrom(d: seq<Byte>, w: seq<Byte>, at: nat) { |w| == |d| && forall k :: at <= k < |d| ==> w[k] == d[k] }

  lemma PutSameFrom(d: seq<Byte>, at: nat, x: seq<Byte>, from: nat)
    requires at + |x| <= |d| && at + |x| <= from
    ensures SameFrom(d, Put(d, at, x), from)
  {
    PutAt(d, at, x);
  }

  lemma LinkSectorsFit(sectors: nat)
    requires 10 <= sectors <= MAX_SECTORS
    ensures 1 <= LinkSectors(sectors) && 1 + LinkSectors(sectors) + SECTORS_PER_CLUSTER <= sectors
  {
    hide Clusters;
    LinkSectorsSized(sectors);
    assert Clusters(SECTOR_SIZE * sectors, LinkSectors(sectors)) >= 1;
  }

  lemma WholeSector(d: seq<Byte>, x: seq<Byte>)
    requires |x| == SECTOR_SIZE <= |d|
    ensures x[..SECTOR_SIZE] == x && Get(Put(d, 0, x), 0, SECTOR_SIZE) == x
  {
    GetPutSame(d, 0, x);
  }

  lemma DirectoryLink(z: seq<Byte>)
    requires |z| == SECTOR_SIZE && forall k :: 0 <= k < SECTOR_SIZE ==> z[k] == 0
    ensures var s := Put(z, 0, Bytes(DWORD - 1));
            s[..SECTOR_SIZE] == s && s[..4] == Bytes(DWORD - 1) && forall k :: 4 <= k < SECTOR_SIZE ==> s[k] == 0
  {
    hide Bytes, Split;
    PutAt(z, 0, Bytes(DWORD - 1));
  }

  /** Formatting under a mounted file system: the cursors stay, the files go. */
  lemma SkipEmpty(v: Volume, before: Volume, best: nat, files: Files)
    requires Fs(v, 0, map[]) && Fs(before, best, files)
    ensures Fs(v, best, map[])
  {
    hide EntryOk, Apart, LinksOk, Holds;
    if best > 0 {
      SkipFs(v, 0, map[], best);
    }
  }

  /** The link table behind the boot sector, the data region behind the link table. */
  ghost predicate LaidOut(size: nat, links: nat, linkAddress: nat, dataAddress: nat) {
    linkAddress == 1 && dataAddress == 1 + links && Sized(size, links) && size <= SECTOR_SIZE * MAX_SECTORS
  }

  lemma LaidOutMeans(size: nat, links: nat, linkAddress: nat, dataAddress: nat)
    requires LaidOut(size, links, linkAddress, dataAddress)
    ensures Sized(size, links) && 1 <= Clusters(size, links) <= LINKS_PER_SECTOR * links && Clusters(size, links) < DWORD
    ensures linkAddress == 1 && dataAddress == 1 + links
  {
  }

  lemma UsedCluster(f: Info, name: seq<Byte>)
    requires IsFile(f, name)
    ensures f.cluster > 0
  {
  }

  lemma ShortName(name: seq<Byte>)
    requires ValidName(name)
    ensures |name| < MAX_FILENAME
  {
  }

  class FileSystem {
    var disk: seq<Byte>
    var isMounted: bool
    var clusterLinkSectorCount: nat
    var clusterLinkSectorAddress: nat
    var dataAddress: nat
    var freeClusterCount: nat
    var bestIdx: nat
    var bestRootDirIdx: nat
    const buffer512: array<Byte>
    const buffer4096: array<Byte>
    /** The files of the session. */
    ghost var files: Files

    ghost predicate Buffers() { buffer512.Length == SECTOR_SIZE && buffer4096.Length == CLUSTER_SIZE }

    /** Where things are on the disk. */
    ghost predicate Geometry()
      reads this
    {
      LaidOut(|disk|, clusterLinkSectorCount, clusterLinkSectorAddress, dataAddress)
    }

    ghost predicate Session()
      reads this
    {
      Geometry() && bestRootDirIdx < MAX_FILECOUNT && Fs(VolumeOf(disk, clusterLinkSectorCount), bestIdx, files)
    }

    ghost predicate Valid()
      reads this
    {
      Buffers() && (isMounted ==> Session())
    }

    ghost function Vol(): Volume
      requires Geometry()
      reads this
    {
      VolumeOf(disk, clusterLinkSectorCount)
    }

    /** initFAT. */
    constructor (image: seq<Byte>)
      ensures Valid() && !isMounted && disk == image && fresh(buffer512) && fresh(buffer4096)
    {
      disk, isMounted := image, false;
      clusterLinkSectorCount, clusterLinkSectorAddress, dataAddress, freeClusterCount := 0, 0, 0, 0;
      bestIdx, bestRootDirIdx := 0, 0;
      buffer512 := new Byte[SECTOR_SIZE](_ => 0);
      buffer4096 := new Byte[CLUSTER_SIZE](_ => 0);
      files := map[];
    }

    // ---------------------------------------------------------------- sectors and clusters

    method ReadSector(count: nat, lba: nat, buffer: array<Byte>)
      requires SECTOR_SIZE * (lba + count) <= |disk| && SECTOR_SIZE * count <= buffer.Length
      modifies buffer
      ensures buffer[..SECTOR_SIZE * count] == Get(disk, SECTOR_SIZE * lba, SECTOR_SIZE * count)
      ensures buffer[SECTOR_SIZE * count..] == old(buffer[SECTOR_SIZE * count..])
    {
      forall k | 0 <= k < SECTOR_SIZE * count {
        buffer[k] := disk[SECTOR_SIZE * lba + k];
      }
    }

    method WriteSector(count: nat, lba: nat, buffer: array<Byte>)
      requires SECTOR_SIZE * (lba + count) <= |disk| && SECTOR_SIZE * count <= buffer.Length
      modifies `disk
      ensures disk == Put(old(disk), SECTOR_SIZE * lba, buffer[..SECTOR_SIZE * count])
    {
      disk := Put(disk, SECTOR_SIZE * lba, buffer[..SECTOR_SIZE * count]);
    }

    method ReadCluster(offset: nat, buffer: array<Byte>)
      requires Geometry() && offset < Clusters(|disk|, clusterLinkSectorCount) && CLUSTER_SIZE <= buffer.Length
      modifies buffer
      ensures buffer[..CLUSTER_SIZE] == BlockAt(disk, clusterLinkSectorCount, offset)
      ensures buffer[CLUSTER_SIZE..] == old(buffer[CLUSTER_SIZE..])
    {
      hide Get, Clusters;
      ReadSector(SECTORS_PER_CLUSTER, dataAddress + offset * SECTORS_PER_CLUSTER, buffer);
    }

    method WriteCluster(offset: nat, buffer: array<Byte>)
      requires Geometry() && offset < Clusters(|disk|, clusterLinkSectorCount) && CLUSTER_SIZE <= buffer.Length
      modifies `disk
      ensures disk == WithBlock(old(disk), clusterLinkSectorCount, offset, buffer[..CLUSTER_SIZE])
      ensures buffer.Length == CLUSTER_SIZE ==> buffer[..CLUSTER_SIZE] == buffer[..]
    {
      hide Put, Clusters;
      WriteSector(SECTORS_PER_CLUSTER, dataAddress + offset * SECTORS_PER_CLUSTER, buffer);
    }

    /** Storing through a pointer into a buffer. */
    method Store(buffer: array<Byte>, at: nat, x: seq<Byte>)
      requires at + |x| <= buffer.Length
      modifies buffer
      ensures buffer[..] == Put(old(buffer[..]), at, x)
    {
      forall k | 0 <= k < |x| {
        buffer[at + k] := x[k];
      }
    }

    /** ((FileInformation*)buffer4096)[i]. */
    function Dir(i: nat): Info
      requires buffer4096.Length == CLUSTER_SIZE && i < MAX_FILECOUNT
      reads buffer4096
    {
      InfoOf(buffer4096[32 * i..32 * i + 32])
    }

    /** The root directory, read into buffer4096. */
    method LoadDirectory()
      requires Buffers() && Geometry()
      modifies buffer4096
      ensures buffer4096[..] == Get(disk, Data(clusterLinkSectorCount), CLUSTER_SIZE)
      ensures forall i :: 0 <= i < MAX_FILECOUNT ==> Dir(i) == Vol().dir[i]
    {
      hide InfoOf, VolumeOf, Get;
      ReadCluster(0, buffer4096);
      assert buffer4096[..] == buffer4096[..CLUSTER_SIZE];
      forall i | 0 <= i < MAX_FILECOUNT ensures Dir(i) == Vol().dir[i] {
        DirEntry(disk, clusterLinkSectorCount, buffer4096[..], i);
        assert buffer4096[..][32 * i..32 * i + 32] == buffer4096[32 * i..32 * i + 32];
      }
    }

    static lemma DirEntry(d: seq<Byte>, links: nat, b: seq<Byte>, i: nat)
      requires Sized(|d|, links) && i < MAX_FILECOUNT && b == Get(d, Data(links), CLUSTER_SIZE)
      ensures InfoOf(b[32 * i..32 * i + 32]) == VolumeOf(d, links).dir[i]
    {
      hide InfoOf, VolumeOf;
      GetInside(d, Data(links), CLUSTER_SIZE, 32 * i, 32);
      assert b[32 * i..32 * i + 32] == Get(b, 32 * i, 32);
      assert VolumeOf(d, links).dir[i] == InfoAt(d, links, i);
    }

    // ---------------------------------------------------------------- searches

    /** Link `j` of the sector in buffer512. */
    function LinkInBuffer(j: nat): nat
      requires buffer512.Length == SECTOR_SIZE && j < LINKS_PER_SECTOR
      reads buffer512
    {
      Dword(buffer512[4 * j..4 * j + 4])
    }

    lemma LinkSays(sector: seq<Byte>, j: nat)
      requires buffer512.Length == SECTOR_SIZE && buffer512[..] == sector && j < LINKS_PER_SECTOR
      ensures LinkInBuffer(j) == Dword(sector[4 * j..4 * j + 4])
    {
      assert buffer512[4 * j..4 * j + 4] == sector[4 * j..4 * j + 4];
    }

    /** The inner loop of the search: counts bestIdx on past the first free link of the sector, or past all of them. */
    method CountLinks() returns (found: bool)
      requires Buffers()
      modifies `bestIdx
      ensures found <==> FirstZero(buffer512[..], 0) < LINKS_PER_SECTOR
      ensures bestIdx == old(bestIdx) + if found then FirstZero(buffer512[..], 0) + 1 else LINKS_PER_SECTOR
    {
      hide Dword, FirstZero, LinkInBuffer;
      ghost var sector := buffer512[..];
      for j := 0 to LINKS_PER_SECTOR
        invariant bestIdx == old(bestIdx) + j && FirstZero(sector, 0) == FirstZero(sector, j)
      {
        LinkSays(sector, j);
        ZeroHere(sector, j);
        bestIdx := bestIdx + 1;
        if LinkInBuffer(j) == 0 {
          return true;
        }
      }
      ZeroHere(sector, LINKS_PER_SECTOR - 1);
      return false;
    }

    method FindFreeClusterAndUpdate() returns (cluster: int)
      requires Buffers() && Geometry() && !Search(disk, bestIdx, clusterLinkSectorCount).OffDisk?
      modifies `bestIdx, buffer512
      ensures match Search(disk, old(bestIdx), clusterLinkSectorCount)
              case Cluster(c) => cluster == c && bestIdx == c + 1
              case NoCluster => cluster == -1 && bestIdx == old(bestIdx) + LINKS_PER_SECTOR * clusterLinkSectorCount
              case OffDisk => false
    {
      hide Dword, Get, Clusters, Search, FirstZero, Sized, LinkInBuffer, LaidOut;
      LaidOutMeans(|disk|, clusterLinkSectorCount, clusterLinkSectorAddress, dataAddress);
      ghost var first, goal := bestIdx, Search(disk, bestIdx, clusterLinkSectorCount);
      for i := 0 to clusterLinkSectorCount
        invariant bestIdx == first + LINKS_PER_SECTOR * i
        invariant goal == Search(disk, bestIdx, clusterLinkSectorCount - i)
      {
        SearchRound(disk, bestIdx, clusterLinkSectorCount - i);
        var offset := bestIdx / LINKS_PER_SECTOR;
        ReadSector(1, clusterLinkSectorAddress + offset, buffer512);
        var found := CountLinks();
        assert buffer512[..SECTOR_SIZE] == buffer512[..];
        if found {
          return bestIdx - 1;
        }
      }
      SearchOver(disk, bestIdx);
      return -1;
    }

    /** The first free entry at or after bestRootDirIdx, wrapping round; -1 when every entry is used. */
    method FindFreeDirectoryEntryAndUpdate() returns (entry: int)
      requires Buffers() && Geometry() && bestRootDirIdx < MAX_FILECOUNT
      modifies `bestRootDirIdx, buffer4096
      ensures bestRootDirIdx < MAX_FILECOUNT
      ensures entry == -1 <==> !HasFree(Vol().dir)
      ensures entry == -1 ==> bestRootDirIdx == old(bestRootDirIdx)
      ensures entry != -1 ==> entry == bestRootDirIdx && NextFree(Vol().dir, old(bestRootDirIdx), entry)
    {
      hide VolumeOf, Get, Slot, Clusters, NextFree, HasFree, LaidOut, Sized, Dir;
      LaidOutMeans(|disk|, clusterLinkSectorCount, clusterLinkSectorAddress, dataAddress);
      LoadDirectory();
      ghost var start, dir := bestRootDirIdx, Vol().dir;
      NextSlot(start, 0);
      for i := 0 to MAX_FILECOUNT
        invariant bestRootDirIdx == Slot(start, i)
        invariant forall t :: 0 <= t < i ==> dir[Slot(start, t)].cluster != 0
        invariant forall k :: 0 <= k < MAX_FILECOUNT ==> Dir(k) == dir[k]
      {
        if Dir(bestRootDirIdx).cluster == 0 {
          FreeHere(dir, start, i);
          return bestRootDirIdx;
        }
        NextSlot(start, i);
        bestRootDirIdx := (bestRootDirIdx + 1) % MAX_FILECOUNT;
      }
      AllUsed(dir, start);
      FullCircle(start);
      return -1;
    }

    method SetClusterLinkTable(idx: nat, data: nat)
      requires Buffers() && Geometry() && idx < LINKS_PER_SECTOR * clusterLinkSectorCount && data < DWORD
      modifies `disk, buffer512
      ensures disk == WithLink(old(disk), clusterLinkSectorCount, idx, data)
    {
      hide Bytes, Split, Get, Put, Clusters;
      var offset, j := idx / LINKS_PER_SECTOR, idx % LINKS_PER_SECTOR;
      ReadSector(1, clusterLinkSectorAddress + offset, buffer512);
      assert buffer512[..] == buffer512[..SECTOR_SIZE];
      Store(buffer512, 4 * j, Bytes(data));
      assert buffer512[..] == buffer512[..SECTOR_SIZE];
      PutInside(disk, SECTOR_SIZE * (1 + offset), SECTOR_SIZE, 4 * j, Bytes(data));
      WriteSector(1, clusterLinkSectorAddress + offset, buffer512);
    }

    // ---------------------------------------------------------------- the operations

    /** createFile gets as far as adding a file. */
    ghost predicate WillCreate(fileName: seq<Byte>)
      requires Valid()
      reads this
    {
      && isMounted && fileName !in files && |files| < MAX_FILECOUNT
      && Search(disk, bestIdx, clusterLinkSectorCount).Cluster?
    }

    /** It would, but the search finds no cluster. */
    ghost predicate NoneFound(fileName: seq<Byte>)
      requires Valid()
      reads this
    {
      && isMounted && fileName !in files && |files| < MAX_FILECOUNT
      && Search(disk, bestIdx, clusterLinkSectorCount).NoCluster?
    }

    /** The search stays on the disk, and the cluster it returns inside the data region: so it does while 128
      * clusters remain beyond bestIdx (RoomToCreate). */
    ghost predicate Room()
      requires Valid() && isMounted
      reads this
    {
      match Search(disk, bestIdx, clusterLinkSectorCount)
      case Cluster(c) => c < Clusters(|disk|, clusterLinkSectorCount)
      case NoCluster => true
      case OffDisk => false
    }

    /** The scan every operation starts with; only deleteFile compares the names of free entries too
      * (`usedOnly` false). */
    method ScanDirectory(fileName: seq<Byte>, usedOnly: bool) returns (entry: int)
      requires Valid() && isMounted
      modifies buffer4096
      ensures -1 <= entry < MAX_FILECOUNT
      ensures entry == -1 <==> fileName !in files && (usedOnly || !FreeMatch(Vol().dir, fileName))
      ensures entry != -1 ==> Vol().dir[entry].name == fileName && (usedOnly ==> IsFile(Vol().dir[entry], fileName))
      ensures forall j :: 0 <= j < entry && Vol().dir[j].name == fileName ==> usedOnly
      ensures buffer4096[..] == Get(disk, Data(clusterLinkSectorCount), CLUSTER_SIZE)
    {
      hide InfoOf, Get, ValidName, Fs, VolumeOf, Clusters;
      LoadDirectory();
      for i := 0 to MAX_FILECOUNT
        invariant forall j :: 0 <= j < i ==> !IsFile(Vol().dir[j], fileName)
        invariant forall j :: 0 <= j < i && Vol().dir[j].name == fileName ==> usedOnly
      {
        if (!usedOnly || Dir(i).cluster != 0) && Dir(i).name == fileName {
          EntryMatches(Vol(), bestIdx, files, i, fileName);
          return i;
        }
      }
      NameAbsent(Vol(), bestIdx, files, fileName);
      return -1;
    }

    /** Writes the root directory back with entry `i` changed. */
    method StoreEntry(i: nat, e: seq<Byte>)
      requires Buffers() && Geometry() && i < MAX_FILECOUNT && |e| == 32
      requires buffer4096[..] == Get(disk, Data(clusterLinkSectorCount), CLUSTER_SIZE)
      modifies `disk, buffer4096
      ensures disk == WithEntry(old(disk), clusterLinkSectorCount, i, e)
    {
      hide Get, Put, Clusters, WithBlock, WithEntry;
      DirWriteBack(disk, clusterLinkSectorCount, i, e);
      Store(buffer4096, 32 * i, e);
      WriteCluster(0, buffer4096);
    }

    /** The second half of createFile: marks the cluster as used and puts the entry into the root directory. */
    method AddFile(fileName: seq<Byte>, dirEntry: nat, cluster: nat, ghost best: nat, ghost start: nat)
      requires Buffers() && Geometry() && ValidName(fileName) && fileName !in files
      requires Fs(Vol(), best, files) && Search(disk, best, clusterLinkSectorCount) == Cluster(cluster)
      requires cluster < Clusters(|disk|, clusterLinkSectorCount)
      requires dirEntry < MAX_FILECOUNT && NextFree(Vol().dir, start, dirEntry)
      modifies `disk, buffer512, buffer4096
      ensures Geometry() && |fileName| < MAX_FILENAME
      ensures disk == FileCreated(old(disk), clusterLinkSectorCount, dirEntry, cluster, fileName)
      ensures Fs(Vol(), cluster + 1, files[fileName := File(BlockAt(old(disk), clusterLinkSectorCount, cluster), 0)])
    {
      hide InfoOf, InfoAt, LinkAt, BlockAt, Get, Put, Bytes, Split, ValidName, Fs, Clusters, Search, VolumeOf, EntryBytes, Zeros;
      hide WithLink, WithEntry;
      ShortName(fileName);
      SetClusterLinkTable(cluster, 0xFFFFFFFF);
      var nameLen := |fileName|;
      if nameLen > MAX_FILENAME - 1 {
        nameLen := MAX_FILENAME - 1;
      }
      assert fileName[..nameLen] == fileName;
      var fileInfo := EntryBytes(fileName[..nameLen], 0, cluster);
      LoadDirectory();
      StoreEntry(dirEntry, fileInfo);
      AfterCreate(old(disk), clusterLinkSectorCount, best, files, dirEntry, cluster, fileName);
    }

    /** The two writes of createFile have been made on `d`: into the first free entry from the cursor `start` on, for the
      * cluster the search from `best` returns. Both cursors have moved there. */
    ghost predicate Stored(d: seq<Byte>, best: nat, start: nat, fileName: seq<Byte>)
      reads this
    {
      && Geometry() && |d| == |disk| && |fileName| < MAX_FILENAME
      && NextFree(VolumeOf(d, clusterLinkSectorCount).dir, start, bestRootDirIdx)
      && bestIdx > 0 && Search(d, best, clusterLinkSectorCount) == Cluster(bestIdx - 1)
      && bestIdx <= LINKS_PER_SECTOR * clusterLinkSectorCount
      && disk == FileCreated(d, clusterLinkSectorCount, bestRootDirIdx, bestIdx - 1, fileName)
    }

    /** Adds an empty file over whatever its cluster held; does nothing if the name is taken, the directory is
      * full, no cluster is found or no disk is mounted. */
    method CreateFile(fileName: seq<Byte>)
      requires Valid() && ValidName(fileName)
      requires isMounted && fileName !in files && |files| < MAX_FILECOUNT ==> Room()
      modifies `disk, `bestIdx, `bestRootDirIdx, `files, buffer512, buffer4096
      ensures Valid()
      ensures files ==
        if old(WillCreate(fileName)) then
          old(files)[fileName := old(File(BlockAt(disk, clusterLinkSectorCount, Search(disk, bestIdx, clusterLinkSectorCount).c), 0))]
        else
          old(files)
      ensures if old(WillCreate(fileName)) then Stored(old(disk), old(bestIdx), old(bestRootDirIdx), fileName) else disk == old(disk)
      ensures !isMounted || fileName in old(files) || |old(files)| == MAX_FILECOUNT ==>
                bestIdx == old(bestIdx) && bestRootDirIdx == old(bestRootDirIdx)
      ensures old(NoneFound(fileName)) ==>
                bestIdx == old(bestIdx) + LINKS_PER_SECTOR * clusterLinkSectorCount && NextFree(Vol().dir, old(bestRootDirIdx), bestRootDirIdx)
    {
      hide BlockAt, Get, Put, ValidName, Fs, Clusters, Search, HasFree, VolumeOf, NextFree, IsFile, LaidOut, Sized, FileCreated;
      ShortName(fileName);
      if !isMounted {
        return;
      }
      LaidOutMeans(|disk|, clusterLinkSectorCount, clusterLinkSectorAddress, dataAddress);
      FileCount(Vol(), bestIdx, files);
      var found := ScanDirectory(fileName, true);
      if found != -1 {
        return;
      }
      var dirEntry := FindFreeDirectoryEntryAndUpdate();
      if dirEntry == -1 {
        return;
      }
      var cluster := FindFreeClusterAndUpdate();
      if cluster == -1 {
        SkipFs(Vol(), old(bestIdx), files, bestIdx);
        return;
      }
      ghost var block := BlockAt(disk, clusterLinkSectorCount, cluster);
      AddFile(fileName, dirEntry, cluster, old(bestIdx), old(bestRootDirIdx));
      files := files[fileName := File(block, 0)];
    }

    /** A free entry carries this name, and deleteFile would find it. */
    ghost predicate NamesFree(fileName: seq<Byte>)
      requires Valid()
      reads this
    {
      isMounted && FreeMatch(Vol().dir, fileName)
    }

    /** The two writes of deleteFile have been made on `d`, for the first entry with the name. */
    ghost predicate Cleared(d: seq<Byte>, fileName: seq<Byte>)
      reads this
    {
      && Geometry() && |d| == |disk|
      && exists i: nat :: i < MAX_FILECOUNT && ClearedAt(d, fileName, i)
    }

    ghost predicate ClearedAt(d: seq<Byte>, fileName: seq<Byte>, i: nat)
      requires Geometry() && |d| == |disk| && i < MAX_FILECOUNT
      reads this
    {
      var dir := VolumeOf(d, clusterLinkSectorCount).dir;
      var e := dir[i];
      && (forall j :: 0 <= j < i ==> dir[j].name != fileName)
      && e.name == fileName && e.cluster < LINKS_PER_SECTOR * clusterLinkSectorCount
      && disk == FileDeleted(d, clusterLinkSectorCount, i, e.cluster)
    }

    /** Removes the file, if there is one. The session survives exactly if no free entry carries the name, as none
      * carries a valid one (ValidHasNoFreeMatch); otherwise the directory loses its link. */
    method DeleteFile(fileName: seq<Byte>)
      requires Valid()
      modifies `disk, `files, buffer512, buffer4096
      ensures Valid() <==> !old(NamesFree(fileName))
      ensures files == if isMounted then old(files) - {fileName} else old(files)
      ensures old(NamesFree(fileName)) ==> Geometry() && Vol().link[0] == 0
      ensures if isMounted && (fileName in old(files) || old(NamesFree(fileName))) then Cleared(old(disk), fileName) else disk == old(disk)
    {
      hide BlockAt, Get, Put, Bytes, Split, ValidName, Fs, Clusters, VolumeOf, IsFile, LaidOut, Sized, WithLink, WithEntry, WithBlock, Dir,
        FreeMatch, Erased;
      if !isMounted {
        return;
      }
      LaidOutMeans(|disk|, clusterLinkSectorCount, clusterLinkSectorAddress, dataAddress);
      var i := ScanDirectory(fileName, false);
      if i == -1 {
        return;
      }
      ghost var links, cluster, b := clusterLinkSectorCount, Vol().dir[i].cluster, buffer4096[..];
      AfterDelete(disk, links, bestIdx, files, i, fileName);
      DirectoryKept(disk, links, cluster, 0);
      GetInside(disk, Data(links), CLUSTER_SIZE, 32 * i, 32);
      DirEntryHere(i);
      SetClusterLinkTable(Dir(i).cluster, 0);
      Store(buffer4096, 32 * i + 28, Bytes(0));
      Store(buffer4096, 32 * i, [0xE5]);
      ErasedInside(b, i);
      DirWriteBack(disk, links, i, Erased(Get(b, 32 * i, 32)));
      WriteCluster(0, buffer4096);
      files := files - {fileName};
      assert ClearedAt(old(disk), fileName, i);
      if old(NamesFree(fileName)) {
        DirectoryLost(Vol(), bestIdx, files);
      }
    }

    /** The entries in buffer4096 once the root directory is there. */
    lemma DirEntryHere(i: nat)
      requires Buffers() && Geometry() && i < MAX_FILECOUNT
      requires buffer4096[..] == Get(disk, Data(clusterLinkSectorCount), CLUSTER_SIZE)
      ensures Dir(i) == Vol().dir[i]
    {
      hide InfoOf, VolumeOf, Get;
      DirEntry(disk, clusterLinkSectorCount, buffer4096[..], i);
      assert buffer4096[..][32 * i..32 * i + 32] == buffer4096[32 * i..32 * i + 32];
    }

    /** The size of the file, whose block goes into `buffer`; -1, and nothing read, without such a file. */
    method ReadFile(fileName: seq<Byte>, buffer: array<Byte>) returns (size: int)
      requires Valid()
      requires CLUSTER_SIZE <= buffer.Length && buffer != buffer4096
      modifies buffer4096, buffer
      ensures Valid()
      ensures isMounted && fileName in files ==>
        size == files[fileName].size && buffer[..CLUSTER_SIZE] == files[fileName].block && buffer[CLUSTER_SIZE..] == old(buffer[CLUSTER_SIZE..])
      ensures !(isMounted && fileName in files) ==> size == -1 && buffer[..] == old(buffer[..])
    {
      hide BlockAt, Get, ValidName, Fs, Clusters, VolumeOf, IsFile, LaidOut, Sized, Dir;
      if !isMounted {
        return -1;
      }
      LaidOutMeans(|disk|, clusterLinkSectorCount, clusterLinkSectorAddress, dataAddress);
      var i := ScanDirectory(fileName, true);
      if i == -1 {
        return -1;
      }
      NameListed(Vol(), bestIdx, files, i, fileName);
      UsedCluster(Vol().dir[i], fileName);
      DirEntryHere(i);
      size := Dir(i).size;
      ReadCluster(Dir(i).cluster, buffer);
    }

    /** The two writes of writeFile have been made on `d`: the cluster of the file's entry, and the size in that entry. */
    ghost predicate Rewritten(d: seq<Byte>, fileName: seq<Byte>, x: seq<Byte>, size: int)
      reads this
    {
      && Geometry() && |d| == |disk| && |x| == CLUSTER_SIZE
      && exists i: nat :: i < MAX_FILECOUNT && RewrittenAt(d, fileName, x, size, i)
    }

    ghost predicate RewrittenAt(d: seq<Byte>, fileName: seq<Byte>, x: seq<Byte>, size: int, i: nat)
      requires Geometry() && |d| == |disk| && |x| == CLUSTER_SIZE && i < MAX_FILECOUNT
      reads this
    {
      var links := clusterLinkSectorCount;
      var e := VolumeOf(d, links).dir[i];
      && IsFile(e, fileName) && e.cluster < Clusters(|d|, links)
      && disk == WithEntry(WithBlock(d, links, e.cluster, x), links, i, Put(Get(d, Data(links) + 32 * i, 32), 24, Bytes(size)))
    }

    /** Stores a block and a size; FALSE, and nothing written, without such a file. */
    method WriteFile(fileName: seq<Byte>, buffer: array<Byte>, size: int) returns (ok: bool)
      requires Valid() && -0x8000_0000 <= size < 0x8000_0000
      requires CLUSTER_SIZE <= buffer.Length && buffer != buffer4096
      modifies `disk, `files, buffer4096
      ensures Valid()
      ensures ok <==> isMounted && fileName in old(files)
      ensures files == if ok then old(files)[fileName := File(buffer[..CLUSTER_SIZE], size)] else old(files)
      ensures if ok then Rewritten(old(disk), fileName, buffer[..CLUSTER_SIZE], size) else disk == old(disk)
    {
      hide BlockAt, Get, Put, Bytes, Split, ValidName, Fs, Clusters, VolumeOf, IsFile, LaidOut, Sized, WithEntry, WithBlock, Dir;
      if !isMounted {
        return false;
      }
      LaidOutMeans(|disk|, clusterLinkSectorCount, clusterLinkSectorAddress, dataAddress);
      var i := ScanDirectory(fileName, true);
      if i == -1 {
        return false;
      }
      ghost var links, cluster, b := clusterLinkSectorCount, Vol().dir[i].cluster, buffer4096[..];
      ghost var x := buffer[..CLUSTER_SIZE];
      AfterWrite(disk, links, bestIdx, files, i, fileName, x, size);
      DirectoryBesideBlock(disk, links, cluster, x);
      GetInside(disk, Data(links), CLUSTER_SIZE, 32 * i, 32);
      DirEntryHere(i);
      WriteCluster(Dir(i).cluster, buffer);
      Store(buffer4096, 32 * i + 24, Bytes(size));
      PutInside(b, 32 * i, 32, 24, Bytes(size));
      DirWriteBack(disk, links, i, Put(Get(b, 32 * i, 32), 24, Bytes(size)));
      WriteCluster(0, buffer4096);
      files := files[fileName := File(x, size)];
      assert RewrittenAt(old(disk), fileName, x, size, i);
      return true;
    }

    // ---------------------------------------------------------------- format and mount

    method MemsetZero(buffer: array<Byte>)
      modifies buffer
      ensures forall k :: 0 <= k < buffer.Length ==> buffer[k] == 0
    {
      forall k | 0 <= k < buffer.Length {
        buffer[k] := 0;
      }
    }

    /** The boot sector of format, built in buffer512 field by field. */
    method BuildBootSector(clusterCount: nat, links: nat)
      requires Buffers()
      modifies buffer512
      ensures exists b: seq<Byte> :: ClearCode(b) && buffer512[..] == BootSector(b, clusterCount, links)
    {
      hide Put, Bytes, Split;
      for i := 0 to 420
        invariant forall k :: 0 <= k < i ==> buffer512[k] == 0
      {
        buffer512[i] := 0;
      }
      ghost var b := buffer512[..];
      Store(buffer512, 440, [BOOTLOADER_SIGNATURE % 256, BOOTLOADER_SIGNATURE / 256]);
      Store(buffer512, 420, Bytes(SIGNATURE));
      Store(buffer512, 424, Bytes(clusterCount));
      Store(buffer512, 428, Bytes(links));
      Store(buffer512, 432, Bytes(1));
      Store(buffer512, 436, Bytes(1 + links));
      assert buffer512[..] == BootSector(b, clusterCount, links);
    }

    /** Clears the link table and the root directory, eight sectors at a time. */
    method ClearTables(links: nat)
      requires Buffers() && SECTOR_SIZE * (1 + links + SECTORS_PER_CLUSTER) <= |disk|
      modifies `disk, buffer4096
      ensures |disk| == old(|disk|) && Get(disk, 0, SECTOR_SIZE) == Get(old(disk), 0, SECTOR_SIZE)
      ensures ZeroRange(disk, SECTOR_SIZE, SECTOR_SIZE * (1 + links + SECTORS_PER_CLUSTER))
      ensures SameFrom(old(disk), disk, SECTOR_SIZE * (1 + links + SECTORS_PER_CLUSTER))
    {
      hide Get, Put;
      MemsetZero(buffer4096);
      var initSectorCount := links + SECTORS_PER_CLUSTER;
      var i := 0;
      while i < initSectorCount
        invariant |disk| == old(|disk|) && Get(disk, 0, SECTOR_SIZE) == Get(old(disk), 0, SECTOR_SIZE)
        invariant forall k :: 0 <= k < buffer4096.Length ==> buffer4096[k] == 0
        invariant SameFrom(old(disk), disk, SECTOR_SIZE * (1 + links + SECTORS_PER_CLUSTER))
        invariant ZeroRange(disk, SECTOR_SIZE, SECTOR_SIZE * (1 + if i < initSectorCount then i else initSectorCount))
      {
        var writeCount := initSectorCount - i;
        if writeCount > SECTORS_PER_CLUSTER {
          writeCount := SECTORS_PER_CLUSTER;
        }
        MoreZeros(disk, SECTOR_SIZE, SECTOR_SIZE * (1 + i), buffer4096[..SECTOR_SIZE * writeCount]);
        PutSameFrom(disk, SECTOR_SIZE * (1 + i), buffer4096[..SECTOR_SIZE * writeCount], SECTOR_SIZE * (1 + links + SECTORS_PER_CLUSTER));
        WriteSector(writeCount, 1 + i, buffer4096);
        i := i + SECTORS_PER_CLUSTER;
      }
    }

    /** Leaves an empty file system, whether or not one is mounted. */
    method Format(totalSector: nat) returns (ok: bool)
      requires Valid() && |disk| == SECTOR_SIZE * totalSector && 10 <= totalSector <= MAX_SECTORS
      requires isMounted ==> clusterLinkSectorCount == LinkSectors(totalSector)
      modifies `disk, `files, buffer512, buffer4096
      ensures ok && Formatted(disk) && |disk| == old(|disk|) && BootField(disk, 428) == LinkSectors(totalSector)
      ensures Blank(VolumeOf(disk, LinkSectors(totalSector)))
      ensures LinksFor(totalSector, BootField(disk, 428)) && BootField(disk, 424) == totalSector / 8 && NoBootCode(disk)
      ensures SameFrom(old(disk), disk, SECTOR_SIZE * (9 + BootField(disk, 428)))
      ensures Valid() && files == if isMounted then map[] else old(files)
    {
      hide Get, Put, Bytes, Split, Clusters, VolumeOf, Fs, BootSector, ZeroRange, Formatted, Blank, LinksFor, NoBootCode;
      var clusterCount := totalSector / SECTORS_PER_CLUSTER;
      var links := LinkSectors(totalSector);
      LinkSectorsFit(totalSector);
      BuildBootSector(clusterCount, links);
      ghost var b :| ClearCode(b) && buffer512[..] == BootSector(b, clusterCount, links);
      PutSameFrom(disk, 0, buffer512[..SECTOR_SIZE], SECTOR_SIZE * (9 + links));
      WriteSector(1, 0, buffer512);
      WholeSector(old(disk), buffer512[..]);
      ClearTables(links);
      MemsetZero(buffer512);
      DirectoryLink(buffer512[..]);
      Store(buffer512, 0, Bytes(0xFFFFFFFF));
      FirstLinkSector(disk, buffer512[..], SECTOR_SIZE * (1 + links + SECTORS_PER_CLUSTER));
      PutSameFrom(disk, SECTOR_SIZE, buffer512[..SECTOR_SIZE], SECTOR_SIZE * (9 + links));
      WriteSector(1, 1, buffer512);
      FormatDone(disk, b, totalSector, clusterCount);
      if isMounted {
        SkipEmpty(Vol(), old(Vol()), bestIdx, files);
        files := map[];
      }
      return true;
    }

    /** A DWORD of the boot sector in buffer512. */
    function BootDword(at: nat): nat
      requires buffer512.Length == SECTOR_SIZE && at + 4 <= SECTOR_SIZE
      reads buffer512
    {
      Dword(buffer512[at..at + 4])
    }

    /** Mounting what format left starts a session without files. */
    method Mount() returns (ok: bool)
      requires Buffers() && SECTOR_SIZE <= |disk|
      modifies this, buffer512, buffer4096
      ensures disk == old(disk) && (ok <==> BootField(disk, 420) == SIGNATURE)
      ensures ok ==>
        && isMounted && bestIdx == 0 && bestRootDirIdx == 0
        && clusterLinkSectorCount == BootField(disk, 428) && clusterLinkSectorAddress == BootField(disk, 432)
        && dataAddress == BootField(disk, 436) && freeClusterCount == BootField(disk, 424)
      ensures !ok ==>
        && isMounted == old(isMounted) && bestIdx == old(bestIdx) && bestRootDirIdx == old(bestRootDirIdx) && files == old(files)
        && clusterLinkSectorCount == old(clusterLinkSectorCount) && clusterLinkSectorAddress == old(clusterLinkSectorAddress)
        && dataAddress == old(dataAddress) && freeClusterCount == old(freeClusterCount)
      ensures Formatted(disk) ==> ok && Valid() && files == map[]
    {
      hide Get, Dword, Fs, VolumeOf, Sized;
      MemsetZero(buffer512);
      MemsetZero(buffer4096);
      ReadSector(1, 0, buffer512);
      BootDwords(disk, buffer512[..SECTOR_SIZE]);
      assert buffer512[..SECTOR_SIZE] == buffer512[..];
      if BootDword(420) != SIGNATURE {
        return false;
      }
      clusterLinkSectorAddress := BootDword(432);
      clusterLinkSectorCount := BootDword(428);
      dataAddress := BootDword(436);
      freeClusterCount := BootDword(424);
      bestIdx := 0;
      bestRootDirIdx := 0;
      isMounted := true;
      files := map[];
      return true;
    }

    static lemma BootDwords(d: seq<Byte>, b: seq<Byte>)
      requires SECTOR_SIZE <= |d| && b == Get(d, 0, SECTOR_SIZE)
      ensures Dword(b[420..424]) == BootField(d, 420) && Dword(b[424..428]) == BootField(d, 424)
      ensures Dword(b[428..432]) == BootField(d, 428) && Dword(b[432..436]) == BootField(d, 432)
      ensures Dword(b[436..440]) == BootField(d, 436)
    {
      hide Dword;
      assert b[420..424] == Get(d, 420, 4) && b[424..428] == Get(d, 424, 4) && b[428..432] == Get(d, 428, 4);
      assert b[432..436] == Get(d, 432, 4) && b[436..440] == Get(d, 436, 4);
    }
  }

  /** A run of calls that loses the directory's link: format, mount, and delete the empty name. */
  method DeleteEmptyName(sectors: nat) returns (fs: FileSystem)
    requires 10 <= sectors <= MAX_SECTORS
    ensures fs.isMounted && fs.Geometry() && fs.Vol().link[0] == 0 && !fs.Valid()
  {
    hide VolumeOf, Clusters, LaidOut, Get, Dword, Formatted, Blank;
    fs := new FileSystem(seq(SECTOR_SIZE * sectors, i => 0));
    var formatted := fs.Format(sectors);
    var mounted := fs.Mount();
    EmptyNameMatches(fs.Vol());
    fs.DeleteFile([]);
  }

  lemma FreshDisk(d: seq<Byte>, links: nat)
    requires Sized(|d|, links) && Blank(VolumeOf(d, links))
    ensures Search(d, 0, links) == Cluster(1)
  {
    hide VolumeOf, Clusters, Search, FirstFree;
    FirstThree(VolumeOf(d, links).link);
    SearchIs(d, links, 0);
  }

  lemma RoomOnDisk(sectors: nat, links: nat)
    requires LinksFor(sectors, links) && sectors >= 18
    ensures Clusters(SECTOR_SIZE * sectors, links) >= 2
  {
    hide Clusters;
  }

  lemma BlankEntry(v: Volume)
    requires Blank(v) && |v.dir| == MAX_FILECOUNT
    ensures v.dir[0].cluster == 0
  {
  }

  lemma FirstEntry(dir: seq<Info>, i: nat)
    requires |dir| == MAX_FILECOUNT && dir[0].cluster == 0 && NextFree(dir, 0, i)
    ensures i == 0
  {
    var t :| 0 <= t && Slot(0, t) == i && forall u :: 0 <= u < t ==> dir[Slot(0, u)].cluster != 0;
    assert Slot(0, 0) == 0;
  }

  /** A disk of 18 sectors or more takes a file of any valid name once it is formatted and mounted: in its first entry and
    * in cluster 1. */
  method CreateFirst(image: seq<Byte>, sectors: nat, name: seq<Byte>) returns (fs: FileSystem)
    requires |image| == SECTOR_SIZE * sectors && 18 <= sectors <= MAX_SECTORS && ValidName(name)
    ensures fs.Valid() && fs.isMounted && fs.files.Keys == {name} && fs.files[name].size == 0
    ensures fs.bestIdx == 2 && fs.bestRootDirIdx == 0
  {
    hide VolumeOf, Clusters, LaidOut, Get, Dword, Formatted, Blank, ValidName, LinksFor, NextFree, Fs, Search, Sized, NoBootCode, SameFrom;
    fs := new FileSystem(image);
    var formatted := fs.Format(sectors);
    var mounted := fs.Mount();
    LaidOutMeans(|fs.disk|, fs.clusterLinkSectorCount, fs.clusterLinkSectorAddress, fs.dataAddress);
    FreshDisk(fs.disk, fs.clusterLinkSectorCount);
    RoomOnDisk(sectors, fs.clusterLinkSectorCount);
    ghost var dir := fs.Vol().dir;
    BlankEntry(fs.Vol());
    fs.CreateFile(name);
    FirstEntry(dir, fs.bestRootDirIdx);
    assert fs.files.Keys == {name};
  }
}
