/** The bytes of the file system of kernel/fs/FAT.c: boot sector, link table, root directory, clusters.
  * The disk is one flat sequence of bytes; sector s is the 512 bytes from 512 * s. */
module FatLayout {
  import opened Words

  const SECTOR_SIZE: nat := 512
  const CLUSTER_SIZE: nat := 4096
  const MAX_FILECOUNT: nat := 128
  const MAX_FILENAME: nat := 24        // CLUSTER_SIZE / MAX_FILECOUNT - 8
  const LINKS_PER_SECTOR: nat := 128   // SECTOR_SIZE / LINK_SIZE

  // ---------------------------------------------------------------- reading and writing ranges of bytes

  function Get(d: seq<Byte>, at: nat, n: nat): (r: seq<Byte>)
    requires at + n <= |d|
    ensures |r| == n
  {
    d[at..at + n]
  }

  function Put(d: seq<Byte>, at: nat, x: seq<Byte>): (r: seq<Byte>)
    requires at + |x| <= |d|
    ensures |r| == |d|
  {
    d[..at] + x + d[at + |x|..]
  }

  lemma PutAt(d: seq<Byte>, at: nat, x: seq<Byte>)
    requires at + |x| <= |d|
    ensures forall k :: 0 <= k < |d| ==> Put(d, at, x)[k] == if at <= k < at + |x| then x[k - at] else d[k]
  {
  }

  lemma GetPutSame(d: seq<Byte>, at: nat, x: seq<Byte>)
    requires at + |x| <= |d|
    ensures Get(Put(d, at, x), at, |x|) == x
  {
    assert Put(d, at, x) == d[..at] + x + d[at + |x|..];
  }

  lemma GetPutOther(d: seq<Byte>, at: nat, x: seq<Byte>, from: nat, n: nat)
    requires at + |x| <= |d| && from + n <= |d| && (from + n <= at || at + |x| <= from)
    ensures Get(Put(d, at, x), from, n) == Get(d, from, n)
  {
  }

  /** Only bytes `lo` up to `hi` differ. */
  ghost predicate Within(d: seq<Byte>, w: seq<Byte>, lo: nat, hi: nat) {
    |w| == |d| && forall k :: 0 <= k < |d| && !(lo <= k < hi) ==> w[k] == d[k]
  }

  lemma PutWithin(d: seq<Byte>, at: nat, x: seq<Byte>)
    requires at + |x| <= |d|
    ensures Within(d, Put(d, at, x), at, at + |x|)
  {
    PutAt(d, at, x);
  }

  /** Reading a sector or a cluster, changing part of it and writing it back changes that part only. */
  lemma PutInside(d: seq<Byte>, at: nat, n: nat, k: nat, x: seq<Byte>)
    requires at + n <= |d| && k + |x| <= n
    ensures Put(d, at, Put(Get(d, at, n), k, x)) == Put(d, at + k, x)
  {
    var y := Put(Get(d, at, n), k, x);
    PutAt(Get(d, at, n), k, x);
    PutAt(d, at, y);
    PutAt(d, at + k, x);
  }

  /** A part of a part. */
  lemma GetInside(d: seq<Byte>, at: nat, n: nat, k: nat, m: nat)
    requires at + n <= |d| && k + m <= n
    ensures Get(Get(d, at, n), k, m) == Get(d, at + k, m)
  {
    var g := Get(Get(d, at, n), k, m);
    assert forall j :: 0 <= j < m ==> g[j] == d[at..at + n][k + j] == d[at + (k + j)];
  }

  // ---------------------------------------------------------------- strings

  /** What a C string in a buffer spells: the bytes before the first NUL. */
  function CString(b: seq<Byte>): seq<Byte> {
    if b == [] || b[0] == 0 then [] else [b[0]] + CString(b[1..])
  }

  ghost predicate NoNul(s: seq<Byte>) { forall k :: 0 <= k < |s| ==> s[k] != 0 }

  lemma {:induction false} CStringPadded(s: seq<Byte>, z: seq<Byte>)
    requires NoNul(s) && z != [] && z[0] == 0
    ensures CString(s + z) == s
  {
    if s == [] {
      assert s + z == z;
    } else {
      CStringPadded(s[1..], z);
      assert (s + z)[1..] == s[1..] + z;
    }
  }

  /** The names the file system promises anything about. */
  ghost predicate ValidName(s: seq<Byte>) { 1 <= |s| < MAX_FILENAME && NoNul(s) && s[0] != 0xE5 }

  // ---------------------------------------------------------------- the disk read as a volume

  /** What a directory entry says; cluster 0 marks a free entry. */
  datatype Info = Info(name: seq<Byte>, size: int, cluster: nat)

  /** The directory, the link table and the clusters; cluster 0 is the directory itself and is left blank here. */
  datatype Volume = Volume(dir: seq<Info>, link: seq<nat>, blocks: seq<seq<Byte>>)

  /** Byte address of the data region behind a link table of `links` sectors. */
  function Data(links: nat): nat { SECTOR_SIZE * (1 + links) }

  /** Whole clusters in the data region. */
  function Clusters(size: nat, links: nat): (n: nat)
    ensures n > 0 ==> Data(links) + CLUSTER_SIZE * n <= size
    ensures size < Data(links) + CLUSTER_SIZE * (n + 1)
  {
    if size < Data(links) then 0 else (size - Data(links)) / CLUSTER_SIZE
  }

  /** There is a root directory, and a link for every cluster. */
  predicate Sized(size: nat, links: nat) { 1 <= Clusters(size, links) <= LINKS_PER_SECTOR * links }

  function InfoOf(e: seq<Byte>): Info
    requires |e| == 32
  {
    Info(CString(e[..MAX_FILENAME]), Int32(Dword(e[24..28])), Dword(e[28..32]))
  }

  function InfoAt(d: seq<Byte>, links: nat, i: nat): Info
    requires Sized(|d|, links) && i < MAX_FILECOUNT
  {
    InfoOf(Get(d, Data(links) + 32 * i, 32))
  }

  function LinkAt(d: seq<Byte>, links: nat, c: nat): nat
    requires Sized(|d|, links) && c < LINKS_PER_SECTOR * links
  {
    Dword(Get(d, SECTOR_SIZE + 4 * c, 4))
  }

  function BlockAt(d: seq<Byte>, links: nat, c: nat): seq<Byte>
    requires Sized(|d|, links) && c < Clusters(|d|, links)
  {
    Get(d, Data(links) + CLUSTER_SIZE * c, CLUSTER_SIZE)
  }

  function VolumeOf(d: seq<Byte>, links: nat): (v: Volume)
    requires Sized(|d|, links)
    ensures |v.dir| == MAX_FILECOUNT && |v.link| == LINKS_PER_SECTOR * links && |v.blocks| == Clusters(|d|, links)
    ensures forall i :: 0 <= i < MAX_FILECOUNT ==> v.dir[i] == InfoAt(d, links, i)
    ensures forall c :: 0 <= c < LINKS_PER_SECTOR * links ==> v.link[c] == LinkAt(d, links, c)
    ensures forall c :: 0 <= c < Clusters(|d|, links) ==> v.blocks[c] == if c == 0 then [] else BlockAt(d, links, c)
  {
    Volume(
      seq(MAX_FILECOUNT, i requires 0 <= i < MAX_FILECOUNT => InfoAt(d, links, i)),
      seq(LINKS_PER_SECTOR * links, c requires 0 <= c < LINKS_PER_SECTOR * links => LinkAt(d, links, c)),
      seq(Clusters(|d|, links), c requires 0 <= c < Clusters(|d|, links) => if c == 0 then [] else BlockAt(d, links, c)))
  }

  // ---------------------------------------------------------------- a write changes one part of the volume

  /** The disk with link `c` set. */
  function WithLink(d: seq<Byte>, links: nat, c: nat, n: nat): (w: seq<Byte>)
    requires Sized(|d|, links) && c < LINKS_PER_SECTOR * links && n < DWORD
    ensures |w| == |d|
  {
    Put(d, SECTOR_SIZE + 4 * c, Bytes(n))
  }

  /** The disk with directory entry `i` replaced by the 32 bytes `e`. */
  function WithEntry(d: seq<Byte>, links: nat, i: nat, e: seq<Byte>): (w: seq<Byte>)
    requires Sized(|d|, links) && i < MAX_FILECOUNT && |e| == 32
    ensures |w| == |d|
  {
    Put(d, Data(links) + 32 * i, e)
  }

  /** The disk with cluster `c` overwritten. */
  function WithBlock(d: seq<Byte>, links: nat, c: nat, x: seq<Byte>): (w: seq<Byte>)
    requires Sized(|d|, links) && c < Clusters(|d|, links) && |x| == CLUSTER_SIZE
    ensures |w| == |d|
  {
    Put(d, Data(links) + CLUSTER_SIZE * c, x)
  }

  lemma DirSame(d: seq<Byte>, at: nat, x: seq<Byte>, links: nat, i: nat)
    requires Sized(|d|, links) && i < MAX_FILECOUNT && at + |x| <= |d|
    requires at + |x| <= Data(links) + 32 * i || Data(links) + 32 * i + 32 <= at
    ensures InfoAt(Put(d, at, x), links, i) == InfoAt(d, links, i)
  {
    hide InfoOf, Get, Put;
    GetPutOther(d, at, x, Data(links) + 32 * i, 32);
  }

  lemma LinkSame(d: seq<Byte>, at: nat, x: seq<Byte>, links: nat, c: nat)
    requires Sized(|d|, links) && c < LINKS_PER_SECTOR * links && at + |x| <= |d|
    requires at + |x| <= SECTOR_SIZE + 4 * c || SECTOR_SIZE + 4 * c + 4 <= at
    ensures LinkAt(Put(d, at, x), links, c) == LinkAt(d, links, c)
  {
    hide Dword, Get, Put;
    GetPutOther(d, at, x, SECTOR_SIZE + 4 * c, 4);
  }

  lemma BlockSame(d: seq<Byte>, at: nat, x: seq<Byte>, links: nat, c: nat)
    requires Sized(|d|, links) && c < Clusters(|d|, links) && at + |x| <= |d|
    requires at + |x| <= Data(links) + CLUSTER_SIZE * c || Data(links) + CLUSTER_SIZE * (c + 1) <= at
    ensures BlockAt(Put(d, at, x), links, c) == BlockAt(d, links, c)
  {
    hide Get, Put, Clusters;
    GetPutOther(d, at, x, Data(links) + CLUSTER_SIZE * c, CLUSTER_SIZE);
  }

  /** Storing link `c` changes link `c`. */
  lemma LinkPut(d: seq<Byte>, links: nat, c: nat, n: nat)
    requires Sized(|d|, links) && c < LINKS_PER_SECTOR * links && n < DWORD
    ensures var v := VolumeOf(d, links); VolumeOf(WithLink(d, links, c, n), links) == v.(link := v.link[c := n])
    ensures Within(d, WithLink(d, links, c, n), SECTOR_SIZE + 4 * c, SECTOR_SIZE + 4 * c + 4)
  {
    hide InfoAt, BlockAt, VolumeOf, Bytes, Split, Put, Get, Clusters, Within;
    PutWithin(d, SECTOR_SIZE + 4 * c, Bytes(n));
    var at, w := SECTOR_SIZE + 4 * c, Put(d, SECTOR_SIZE + 4 * c, Bytes(n));
    GetPutSame(d, at, Bytes(n));
    DwordBytes(n);
    var v, v' := VolumeOf(d, links), VolumeOf(w, links);
    forall i | 0 <= i < MAX_FILECOUNT ensures v'.dir[i] == v.dir[i] {
      DirSame(d, at, Bytes(n), links, i);
    }
    forall x | 0 <= x < |v.link| && x != c ensures v'.link[x] == v.link[x] {
      LinkSame(d, at, Bytes(n), links, x);
    }
    forall x | 0 <= x < |v.blocks| ensures v'.blocks[x] == v.blocks[x] {
      BlockSame(d, at, Bytes(n), links, x);
    }
    assert v'.dir == v.dir && v'.blocks == v.blocks;
    assert v'.link == v.link[c := n];
  }

  /** Writing the root directory back with entry `i` replaced. */
  lemma DirWriteBack(d: seq<Byte>, links: nat, i: nat, e: seq<Byte>)
    requires Sized(|d|, links) && i < MAX_FILECOUNT && |e| == 32
    ensures WithBlock(d, links, 0, Put(Get(d, Data(links), CLUSTER_SIZE), 32 * i, e)) == WithEntry(d, links, i, e)
  {
    hide Put, Get, Clusters;
    PutInside(d, Data(links), CLUSTER_SIZE, 32 * i, e);
  }

  /** Storing an entry changes that entry. */
  lemma DirPut(d: seq<Byte>, links: nat, i: nat, e: seq<Byte>)
    requires Sized(|d|, links) && i < MAX_FILECOUNT && |e| == 32
    ensures var v := VolumeOf(d, links); VolumeOf(WithEntry(d, links, i, e), links) == v.(dir := v.dir[i := InfoOf(e)])
    ensures Within(d, WithEntry(d, links, i, e), Data(links) + 32 * i, Data(links) + 32 * i + 32)
  {
    hide InfoOf, LinkAt, BlockAt, VolumeOf, Put, Get, Clusters, Within;
    PutWithin(d, Data(links) + 32 * i, e);
    var at := Data(links) + 32 * i;
    var w := Put(d, at, e);
    GetPutSame(d, at, e);
    var v, v' := VolumeOf(d, links), VolumeOf(w, links);
    forall j | 0 <= j < MAX_FILECOUNT && j != i ensures v'.dir[j] == v.dir[j] {
      DirSame(d, at, e, links, j);
    }
    forall x | 0 <= x < |v.link| ensures v'.link[x] == v.link[x] {
      LinkSame(d, at, e, links, x);
    }
    forall x | 0 < x < |v.blocks| ensures v'.blocks[x] == v.blocks[x] {
      BlockSame(d, at, e, links, x);
    }
    assert v'.link == v.link && v'.blocks == v.blocks;
    assert v'.dir == v.dir[i := InfoOf(e)];
  }

  /** Writing cluster `c` changes cluster `c`. */
  lemma BlockPut(d: seq<Byte>, links: nat, c: nat, x: seq<Byte>)
    requires Sized(|d|, links) && 0 < c < Clusters(|d|, links) && |x| == CLUSTER_SIZE
    ensures var v := VolumeOf(d, links); VolumeOf(WithBlock(d, links, c, x), links) == v.(blocks := v.blocks[c := x])
    ensures Within(d, WithBlock(d, links, c, x), Data(links) + CLUSTER_SIZE * c, Data(links) + CLUSTER_SIZE * (c + 1))
  {
    hide InfoAt, LinkAt, VolumeOf, Put, Get, Clusters, Within;
    PutWithin(d, Data(links) + CLUSTER_SIZE * c, x);
    var at := Data(links) + CLUSTER_SIZE * c;
    var w := Put(d, at, x);
    GetPutSame(d, at, x);
    var v, v' := VolumeOf(d, links), VolumeOf(w, links);
    forall j | 0 <= j < MAX_FILECOUNT ensures v'.dir[j] == v.dir[j] {
      DirSame(d, at, x, links, j);
    }
    forall y | 0 <= y < |v.link| ensures v'.link[y] == v.link[y] {
      LinkSame(d, at, x, links, y);
    }
    forall y | 0 <= y < |v.blocks| && y != c ensures v'.blocks[y] == v.blocks[y] {
      BlockSame(d, at, x, links, y);
    }
    assert v'.link == v.link && v'.dir == v.dir;
    assert v'.blocks == v.blocks[c := x];
  }

  // ---------------------------------------------------------------- directory entries

  /** A directory entry as createFile builds it. */
  function EntryBytes(name: seq<Byte>, size: int, c: nat): (e: seq<Byte>)
    requires |name| < MAX_FILENAME
    ensures |e| == 32
  {
    name + Zeros(MAX_FILENAME - |name|) + Bytes(size) + Bytes(c)
  }

  /** What it says is what was put in. */
  lemma EntryReads(name: seq<Byte>, size: int, c: nat)
    requires |name| < MAX_FILENAME && NoNul(name) && c < DWORD && -0x8000_0000 <= size < 0x8000_0000
    ensures InfoOf(EntryBytes(name, size, c)) == Info(name, size, c)
    ensures var e := EntryBytes(name, size, c);
            && name <= e && (forall k :: |name| <= k < MAX_FILENAME ==> e[k] == 0)
            && e[24..28] == Bytes(size) && e[28..32] == Bytes(c)
  {
    hide Bytes, Split, Dword, Int32, CString, NoNul;
    var e := EntryBytes(name, size, c);
    assert e[..MAX_FILENAME] == name + Zeros(MAX_FILENAME - |name|);
    CStringPadded(name, Zeros(MAX_FILENAME - |name|));
    assert e[24..28] == Bytes(size) && e[28..32] == Bytes(c);
    IntBytes(size);
    DwordBytes(c);
  }

  /** Storing a new size in an entry. */
  lemma EntryResized(e: seq<Byte>, size: int)
    requires |e| == 32 && -0x8000_0000 <= size < 0x8000_0000
    ensures InfoOf(Put(e, 24, Bytes(size))) == InfoOf(e).(size := size)
  {
    hide Bytes, Split, Dword, Int32, CString, NoNul;
    var w := Put(e, 24, Bytes(size));
    assert w[..MAX_FILENAME] == e[..MAX_FILENAME] && w[24..28] == Bytes(size) && w[28..32] == e[28..32];
    IntBytes(size);
  }

  /** The 32 bytes of a directory entry after deleteFile. */
  function Erased(e: seq<Byte>): (r: seq<Byte>)
    requires |e| == 32
    ensures |r| == 32
  {
    Put(Put(e, 28, Bytes(0)), 0, [0xE5])
  }

  /** The cluster cleared and the first byte of the name 0xE5, and nothing else: a free entry no valid name matches. */
  lemma EntryErased(e: seq<Byte>)
    requires |e| == 32
    ensures var f := InfoOf(Erased(e)); f.cluster == 0 && !ValidName(f.name)
    ensures Erased(e)[0] == 0xE5 && Erased(e)[1..28] == e[1..28] && forall k :: 28 <= k < 32 ==> Erased(e)[k] == 0
  {
    hide Dword, Int32;
    var x := Put(e, 28, Bytes(0));
    var w := Put(x, 0, [0xE5]);
    PutAt(e, 28, Bytes(0));
    PutAt(x, 0, [0xE5]);
    assert w[28..32] == Bytes(0) == [0, 0, 0, 0];
    assert forall k :: 28 <= k < 32 ==> w[k] == w[28..32][k - 28];
    DwordBytes(0);
    assert w[..MAX_FILENAME][0] == 0xE5;
  }

  // ---------------------------------------------------------------- the invariant of a session

  datatype File = File(block: seq<Byte>, size: int)

  type Files = map<seq<Byte>, File>

  predicate Used(dir: seq<Info>, c: nat) { exists i :: 0 <= i < |dir| && dir[i].cluster == c }

  predicate IsFile(f: Info, n: seq<Byte>) { f.cluster != 0 && f.name == n }

  predicate Listed(dir: seq<Info>, n: seq<Byte>) { exists i :: 0 <= i < |dir| && IsFile(dir[i], n) }

  /** A used entry has a valid name and a cluster handed out before; a free one matches no valid name. */
  ghost predicate EntryOk(v: Volume, best: nat, f: Info) {
    if f.cluster != 0 then ValidName(f.name) && f.cluster < best && f.cluster < |v.blocks| else !ValidName(f.name)
  }

  ghost predicate Apart(dir: seq<Info>) {
    forall i, j :: 0 <= i < j < |dir| && dir[i].cluster != 0 && dir[j].cluster != 0 ==>
      dir[i].cluster != dir[j].cluster && dir[i].name != dir[j].name
  }

  /** Link `c` is set exactly for the directory and for the clusters of files. */
  ghost predicate LinksOk(v: Volume) {
    forall c :: 0 <= c < |v.link| ==> (v.link[c] != 0 <==> c == 0 || Used(v.dir, c))
  }

  ghost predicate Holds(v: Volume, files: Files) {
    && (forall n :: n in files <==> Listed(v.dir, n))
    && (forall i :: 0 <= i < |v.dir| && 0 < v.dir[i].cluster < |v.blocks| && v.dir[i].name in files ==>
          files[v.dir[i].name] == File(v.blocks[v.dir[i].cluster], v.dir[i].size))
  }

  /** The volume stores exactly `files`, and the cluster indices from `best` up have never been handed out.
    * The first search returns cluster 1 and moves on to 2, so cluster 2 stays free for good. */
  ghost predicate Fs(v: Volume, best: nat, files: Files) {
    && |v.dir| == MAX_FILECOUNT && 1 <= |v.blocks| <= |v.link|
    && (forall i :: 0 <= i < |v.dir| ==> EntryOk(v, best, v.dir[i]))
    && Apart(v.dir) && LinksOk(v) && Holds(v, files)
    && (best == 0 || (best >= 2 && !Used(v.dir, 2)))
  }
}
