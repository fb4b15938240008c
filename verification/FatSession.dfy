/** What create, delete and write do to a volume, and which cluster a search finds: the logic of kernel/fs/FAT.c
  * without its buffers. */
module FatSession {
  import opened Words
  import opened FatLayout

  // ---------------------------------------------------------------- the operations on volumes

  function Created(v: Volume, i: nat, c: nat, name: seq<Byte>): Volume
    requires i < |v.dir| && c < |v.link|
  {
    v.(dir := v.dir[i := Info(name, 0, c)], link := v.link[c := DWORD - 1])
  }

  function Deleted(v: Volume, i: nat, f: Info): Volume
    requires i < |v.dir| && v.dir[i].cluster < |v.link|
  {
    v.(dir := v.dir[i := f], link := v.link[v.dir[i].cluster := 0])
  }

  function Written(v: Volume, i: nat, x: seq<Byte>, size: int): Volume
    requires i < |v.dir| && v.dir[i].cluster < |v.blocks|
  {
    v.(dir := v.dir[i := v.dir[i].(size := size)], blocks := v.blocks[v.dir[i].cluster := x])
  }

  lemma UsedAfter(dir: seq<Info>, i: nat, f: Info, c: nat)
    requires i < |dir|
    ensures Used(dir[i := f], c) <==> f.cluster == c || exists j :: 0 <= j < |dir| && j != i && dir[j].cluster == c
  {
    var dir' := dir[i := f];
    if f.cluster == c {
      assert dir'[i].cluster == c;
    }
    forall j | 0 <= j < |dir| && j != i ensures dir'[j] == dir[j] {
    }
  }

  lemma ListedAfter(dir: seq<Info>, i: nat, f: Info, n: seq<Byte>)
    requires i < |dir|
    ensures Listed(dir[i := f], n) <==> IsFile(f, n) || exists j :: 0 <= j < |dir| && j != i && IsFile(dir[j], n)
  {
    var dir' := dir[i := f];
    if IsFile(f, n) {
      assert IsFile(dir'[i], n);
    }
    forall j | 0 <= j < |dir| && j != i ensures dir'[j] == dir[j] {
    }
  }

  /** createFile adds an empty file over whatever the cluster held. */
  lemma CreateFs(v: Volume, best: nat, files: Files, i: nat, c: nat, name: seq<Byte>)
    requires Fs(v, best, files) && i < |v.dir| && v.dir[i].cluster == 0
    requires 0 < c && best <= c < |v.blocks| && (best == 0 ==> c == 1) && (best < LINKS_PER_SECTOR ==> best < c)
    requires ValidName(name) && name !in files
    ensures Fs(Created(v, i, c, name), c + 1, files[name := File(v.blocks[c], 0)])
  {
    hide ValidName;
    var v', f := Created(v, i, c, name), Info(name, 0, c);
    var files' := files[name := File(v.blocks[c], 0)];
    forall j | 0 <= j < |v.dir| ensures EntryOk(v', c + 1, v'.dir[j]) {
      assert EntryOk(v, best, v.dir[j]);
      assert v'.dir[j] == if j == i then f else v.dir[j];
    }
    forall x | 0 <= x < |v.link| ensures v'.link[x] != 0 <==> x == 0 || Used(v'.dir, x) {
      UsedAfter(v.dir, i, f, x);
      UsedAfter(v.dir, i, v.dir[i], x);
      assert v.dir[i := v.dir[i]] == v.dir;
    }
    forall n ensures n in files' <==> Listed(v'.dir, n) {
      ListedAfter(v.dir, i, f, n);
      ListedAfter(v.dir, i, v.dir[i], n);
      assert v.dir[i := v.dir[i]] == v.dir;
    }
    CreateApart(v, best, files, i, c, name);
    UsedAfter(v.dir, i, f, 2);
    UsedAfter(v.dir, i, v.dir[i], 2);
    assert v.dir[i := v.dir[i]] == v.dir;
  }

  lemma CreateApart(v: Volume, best: nat, files: Files, i: nat, c: nat, name: seq<Byte>)
    requires Fs(v, best, files) && i < |v.dir| && v.dir[i].cluster == 0 && best <= c < |v.blocks| && name !in files
    ensures Apart(Created(v, i, c, name).dir)
  {
    hide ValidName;
    var dir' := Created(v, i, c, name).dir;
    forall j | 0 <= j < |dir'| && j != i && dir'[j].cluster != 0 ensures dir'[j].cluster != c && dir'[j].name != name {
      assert EntryOk(v, best, v.dir[j]) && IsFile(v.dir[j], v.dir[j].name);
      assert Listed(v.dir, v.dir[j].name);
    }
  }

  /** deleteFile removes the file and gives its cluster back. */
  lemma DeleteFs(v: Volume, best: nat, files: Files, i: nat, f: Info)
    requires Fs(v, best, files) && i < |v.dir| && v.dir[i].cluster != 0
    requires f.cluster == 0 && !ValidName(f.name)
    ensures v.dir[i].cluster < |v.link| && v.dir[i].name in files
    ensures Fs(Deleted(v, i, f), best, files - {v.dir[i].name})
  {
    hide ValidName, LinksOk;
    assert EntryOk(v, best, v.dir[i]) && IsFile(v.dir[i], v.dir[i].name);
    var v', files' := Deleted(v, i, f), files - {v.dir[i].name};
    forall j | 0 <= j < |v.dir| ensures EntryOk(v', best, v'.dir[j]) {
      assert EntryOk(v, best, v.dir[j]);
    }
    assert v.dir[i := v.dir[i]] == v.dir;
    forall n ensures n in files' <==> Listed(v'.dir, n) {
      ListedAfter(v.dir, i, f, n);
      ListedAfter(v.dir, i, v.dir[i], n);
    }
    UsedAfter(v.dir, i, f, 2);
    UsedAfter(v.dir, i, v.dir[i], 2);
    DeleteLinks(v, i, f);
  }

  lemma DeleteLinks(v: Volume, i: nat, f: Info)
    requires LinksOk(v) && Apart(v.dir) && i < |v.dir| && 0 < v.dir[i].cluster < |v.link| && f.cluster == 0
    ensures LinksOk(Deleted(v, i, f))
  {
    var v' := Deleted(v, i, f);
    assert v.dir[i := v.dir[i]] == v.dir;
    forall x | 0 <= x < |v.link| ensures v'.link[x] != 0 <==> x == 0 || Used(v'.dir, x) {
      UsedAfter(v.dir, i, f, x);
      UsedAfter(v.dir, i, v.dir[i], x);
    }
  }

  /** writeFile changes the block and the size of one file. */
  lemma WriteFs(v: Volume, best: nat, files: Files, i: nat, x: seq<Byte>, size: int)
    requires Fs(v, best, files) && i < |v.dir| && v.dir[i].cluster != 0
    ensures v.dir[i].cluster < |v.blocks|
    ensures Fs(Written(v, i, x, size), best, files[v.dir[i].name := File(x, size)])
  {
    hide ValidName;
    assert EntryOk(v, best, v.dir[i]) && IsFile(v.dir[i], v.dir[i].name);
    var v', f := Written(v, i, x, size), v.dir[i].(size := size);
    var files' := files[v.dir[i].name := File(x, size)];
    forall j | 0 <= j < |v.dir| ensures EntryOk(v', best, v'.dir[j]) {
      assert EntryOk(v, best, v.dir[j]);
    }
    assert v.dir[i := v.dir[i]] == v.dir;
    forall y: nat ensures Used(v'.dir, y) <==> Used(v.dir, y) {
      UsedAfter(v.dir, i, f, y);
      UsedAfter(v.dir, i, v.dir[i], y);
    }
    forall n ensures n in files' <==> Listed(v'.dir, n) {
      ListedAfter(v.dir, i, f, n);
      ListedAfter(v.dir, i, v.dir[i], n);
    }
  }

  /** Cluster indices not handed out yet are not in use. */
  lemma Fresh(v: Volume, best: nat, files: Files, c: nat)
    requires Fs(v, best, files) && best <= c && 0 < c
    ensures !Used(v.dir, c)
  {
    hide ValidName;
    forall j | 0 <= j < |v.dir| ensures v.dir[j].cluster != c {
      assert EntryOk(v, best, v.dir[j]);
    }
  }

  /** Cluster indices may be skipped. */
  lemma SkipFs(v: Volume, best: nat, files: Files, next: nat)
    requires Fs(v, best, files) && best <= next && 2 <= next
    ensures Fs(v, next, files)
  {
    hide ValidName;
    forall j | 0 <= j < |v.dir| ensures EntryOk(v, next, v.dir[j]) {
      assert EntryOk(v, best, v.dir[j]);
    }
    if best == 0 {
      Fresh(v, best, files, 2);
    }
  }

  /** A blank directory over a link table with only its first link set: what format leaves. */
  ghost predicate Blank(v: Volume) {
    && (forall i :: 0 <= i < |v.dir| ==> v.dir[i] == Info([], 0, 0))
    && (forall c :: 0 <= c < |v.link| ==> (v.link[c] != 0 <==> c == 0))
  }

  lemma BlankFs(v: Volume)
    requires |v.dir| == MAX_FILECOUNT && 1 <= |v.blocks| <= |v.link| && Blank(v)
    ensures Fs(v, 0, map[])
  {
  }

  // ---------------------------------------------------------------- deleting names that are no file's

  /** A free entry carries this name. */
  predicate FreeMatch(dir: seq<Info>, name: seq<Byte>) { exists i :: 0 <= i < |dir| && dir[i].cluster == 0 && dir[i].name == name }

  /** No valid name is ever left on a free entry. */
  lemma ValidHasNoFreeMatch(v: Volume, best: nat, files: Files, name: seq<Byte>)
    requires Fs(v, best, files) && ValidName(name)
    ensures !FreeMatch(v.dir, name)
  {
    hide ValidName;
    forall i | 0 <= i < |v.dir| && v.dir[i].cluster == 0 ensures v.dir[i].name != name {
      assert EntryOk(v, best, v.dir[i]);
    }
  }

  /** deleteFile does not look whether the entry it finds is in use. Whichever entry with the name it finds, what it does
    * leaves a sound volume exactly if no free entry carries that name; otherwise the directory loses its link. */
  lemma DeleteExactly(v: Volume, best: nat, files: Files, i: nat, name: seq<Byte>, f: Info)
    requires Fs(v, best, files) && i < |v.dir| && v.dir[i].name == name && f.cluster == 0 && !ValidName(f.name)
    ensures v.dir[i].cluster < |v.link| && (v.dir[i].cluster != 0 <==> !FreeMatch(v.dir, name))
    ensures (exists best': nat, files': Files :: Fs(Deleted(v, i, f), best', files')) <==> !FreeMatch(v.dir, name)
    ensures FreeMatch(v.dir, name) ==> Deleted(v, i, f).link[0] == 0
  {
    hide ValidName, Apart, Holds;
    assert EntryOk(v, best, v.dir[i]);
    if v.dir[i].cluster != 0 {
      ValidHasNoFreeMatch(v, best, files, name);
      DeleteFs(v, best, files, i, f);
    } else {
      assert FreeMatch(v.dir, name);
      assert Deleted(v, i, f).link[0] == 0;
      assert !LinksOk(Deleted(v, i, f));
    }
  }

  /** The empty name is such a one on every volume just formatted. */
  lemma EmptyNameMatches(v: Volume)
    requires |v.dir| == MAX_FILECOUNT && Blank(v)
    ensures FreeMatch(v.dir, [])
  {
    assert v.dir[0].name == [];
  }

  // ---------------------------------------------------------------- the operations on bytes

  /** createFile's two writes: link `c`, then entry `i`. */
  function FileCreated(d: seq<Byte>, links: nat, i: nat, c: nat, name: seq<Byte>): (w: seq<Byte>)
    requires Sized(|d|, links) && i < MAX_FILECOUNT && c < LINKS_PER_SECTOR * links && |name| < MAX_FILENAME
    ensures |w| == |d|
  {
    WithEntry(WithLink(d, links, c, DWORD - 1), links, i, EntryBytes(name, 0, c))
  }

  lemma CreatedOnDisk(d: seq<Byte>, links: nat, i: nat, c: nat, name: seq<Byte>)
    requires Sized(|d|, links) && i < MAX_FILECOUNT && c < LINKS_PER_SECTOR * links && c < DWORD && ValidName(name)
    ensures |name| < MAX_FILENAME
    ensures VolumeOf(FileCreated(d, links, i, c, name), links) == Created(VolumeOf(d, links), i, c, name)
  {
    hide InfoOf, Get, Put, Bytes, Split, VolumeOf, EntryBytes, WithLink, WithEntry, Clusters;
    LinkPut(d, links, c, DWORD - 1);
    DirPut(WithLink(d, links, c, DWORD - 1), links, i, EntryBytes(name, 0, c));
    EntryReads(name, 0, c);
  }

  /** deleteFile's two writes: link `c`, then entry `i`. */
  function FileDeleted(d: seq<Byte>, links: nat, i: nat, c: nat): (w: seq<Byte>)
    requires Sized(|d|, links) && i < MAX_FILECOUNT && c < LINKS_PER_SECTOR * links
    ensures |w| == |d|
  {
    WithEntry(WithLink(d, links, c, 0), links, i, Erased(Get(d, Data(links) + 32 * i, 32)))
  }

  lemma DeletedOnDisk(d: seq<Byte>, links: nat, i: nat, c: nat) returns (f: Info)
    requires Sized(|d|, links) && i < MAX_FILECOUNT && VolumeOf(d, links).dir[i].cluster == c < LINKS_PER_SECTOR * links
    ensures f.cluster == 0 && !ValidName(f.name)
    ensures VolumeOf(FileDeleted(d, links, i, c), links) == Deleted(VolumeOf(d, links), i, f)
  {
    hide InfoOf, Get, Put, Bytes, Split, VolumeOf, WithLink, WithEntry, ValidName, Clusters;
    var e := Get(d, Data(links) + 32 * i, 32);
    f := InfoOf(Erased(e));
    EntryErased(e);
    LinkPut(d, links, c, 0);
    DirPut(WithLink(d, links, c, 0), links, i, Erased(e));
  }

  // ---------------------------------------------------------------- counting files

  /** The names, and the clusters, of the used entries. */
  ghost function Names(dir: seq<Info>): set<seq<Byte>> {
    set i | 0 <= i < |dir| && dir[i].cluster != 0 :: dir[i].name
  }

  ghost function ClusterSet(dir: seq<Info>): set<nat> {
    set i | 0 <= i < |dir| && dir[i].cluster != 0 :: dir[i].cluster
  }

  ghost predicate HasFree(dir: seq<Info>) { exists i :: 0 <= i < |dir| && dir[i].cluster == 0 }

  lemma {:induction false} NamesSize(dir: seq<Info>)
    requires Apart(dir)
    ensures |Names(dir)| <= |dir| && (|Names(dir)| < |dir| <==> HasFree(dir))
  {
    if dir != [] {
      var k := |dir| - 1;
      NamesSplit(dir, k);
      hide Names, Apart;
      NamesSize(dir[..k]);
      if HasFree(dir[..k]) {
        var i :| 0 <= i < k && dir[..k][i].cluster == 0;
        assert dir[i].cluster == 0;
      }
      if HasFree(dir) && dir[k].cluster != 0 {
        var i :| 0 <= i < |dir| && dir[i].cluster == 0;
        assert dir[..k][i].cluster == 0;
      }
    }
  }

  lemma NamesSplit(dir: seq<Info>, k: nat)
    requires Apart(dir) && |dir| == k + 1
    ensures Apart(dir[..k])
    ensures dir[k].cluster == 0 ==> Names(dir) == Names(dir[..k])
    ensures dir[k].cluster != 0 ==> Names(dir) == Names(dir[..k]) + {dir[k].name} && dir[k].name !in Names(dir[..k])
  {
    var rest := dir[..k];
    forall i | 0 <= i < k ensures rest[i] == dir[i] {
    }
    if dir[k].cluster == 0 {
      assert Names(dir) == Names(rest);
    } else {
      assert Names(dir) == Names(rest) + {dir[k].name};
    }
  }

  lemma {:induction false} ClusterSetSize(dir: seq<Info>)
    ensures |ClusterSet(dir)| <= |dir| && (HasFree(dir) ==> |ClusterSet(dir)| < |dir|)
  {
    if dir != [] {
      var k := |dir| - 1;
      var rest := dir[..k];
      ClusterSetSize(rest);
      assert ClusterSet(dir) == if dir[k].cluster != 0 then ClusterSet(rest) + {dir[k].cluster} else ClusterSet(rest);
      if HasFree(dir) && dir[k].cluster != 0 {
        var i :| 0 <= i < |dir| && dir[i].cluster == 0;
        assert rest[i].cluster == 0;
      }
    }
  }

  /** A session stores at most 128 files, and has a free directory entry exactly while it stores fewer. */
  lemma FileCount(v: Volume, best: nat, files: Files)
    requires Fs(v, best, files)
    ensures |files| <= MAX_FILECOUNT && (|files| < MAX_FILECOUNT <==> HasFree(v.dir))
  {
    hide EntryOk, LinksOk;
    NamesSize(v.dir);
    forall n ensures n in files <==> n in Names(v.dir) {
      if Listed(v.dir, n) {
        var i :| 0 <= i < |v.dir| && IsFile(v.dir[i], n);
      }
      if n in Names(v.dir) {
        var i :| 0 <= i < |v.dir| && v.dir[i].cluster != 0 && v.dir[i].name == n;
        assert IsFile(v.dir[i], n);
      }
    }
    assert files.Keys == Names(v.dir);
  }

  // ---------------------------------------------------------------- the search for a free entry

  /** Entry `t` of a walk round the directory from `start`. */
  function Slot(start: nat, t: nat): (i: nat)
    ensures i < MAX_FILECOUNT
  {
    (start + t) % MAX_FILECOUNT
  }

  lemma NextSlot(start: nat, t: nat)
    ensures start < MAX_FILECOUNT ==> Slot(start, 0) == start
    ensures (Slot(start, t) + 1) % MAX_FILECOUNT == Slot(start, t + 1)
  {
  }

  /** The walk reaches every entry in 128 steps. */
  lemma SlotOf(start: nat, i: nat)
    requires start < MAX_FILECOUNT && i < MAX_FILECOUNT
    ensures exists t :: 0 <= t < MAX_FILECOUNT && Slot(start, t) == i
  {
    assert Slot(start, if start <= i then i - start else i - start + MAX_FILECOUNT) == i;
  }

  /** Entry `i` is the first free one at or after `start`, wrapping round. */
  ghost predicate NextFree(dir: seq<Info>, start: nat, i: nat)
    requires |dir| == MAX_FILECOUNT
  {
    && i < MAX_FILECOUNT && dir[i].cluster == 0
    && exists t :: 0 <= t && Slot(start, t) == i && forall u :: 0 <= u < t ==> dir[Slot(start, u)].cluster != 0
  }

  lemma FullCircle(start: nat)
    requires start < MAX_FILECOUNT
    ensures Slot(start, MAX_FILECOUNT) == start
  {
  }

  lemma FreeHere(dir: seq<Info>, start: nat, t: nat)
    requires |dir| == MAX_FILECOUNT && dir[Slot(start, t)].cluster == 0
    requires forall u :: 0 <= u < t ==> dir[Slot(start, u)].cluster != 0
    ensures NextFree(dir, start, Slot(start, t)) && HasFree(dir)
  {
    hide Slot;
  }

  lemma AllUsed(dir: seq<Info>, start: nat)
    requires |dir| == MAX_FILECOUNT && start < MAX_FILECOUNT
    requires forall t :: 0 <= t < MAX_FILECOUNT ==> dir[Slot(start, t)].cluster != 0
    ensures !HasFree(dir)
  {
    hide Slot;
    forall k | 0 <= k < MAX_FILECOUNT ensures dir[k].cluster != 0 {
      SlotOf(start, k);
    }
  }

  // ---------------------------------------------------------------- the search for a free cluster

  /** The first link from `j` on that is 0, or 128. */
  function FirstZero(sector: seq<Byte>, j: nat): (r: nat)
    requires |sector| == SECTOR_SIZE && j <= LINKS_PER_SECTOR
    ensures j <= r <= LINKS_PER_SECTOR && (r < LINKS_PER_SECTOR ==> Dword(sector[4 * r..4 * r + 4]) == 0)
    ensures forall k :: j <= k < r ==> Dword(sector[4 * k..4 * k + 4]) != 0
    decreases LINKS_PER_SECTOR - j
  {
    if j == LINKS_PER_SECTOR || Dword(sector[4 * j..4 * j + 4]) == 0 then j else FirstZero(sector, j + 1)
  }

  lemma ZeroHere(sector: seq<Byte>, j: nat)
    requires |sector| == SECTOR_SIZE && j < LINKS_PER_SECTOR
    ensures FirstZero(sector, LINKS_PER_SECTOR) == LINKS_PER_SECTOR
    ensures FirstZero(sector, j) == if Dword(sector[4 * j..4 * j + 4]) == 0 then j else FirstZero(sector, j + 1)
  {
  }

  /** What findFreeClusterAndUpdate ends with: a cluster, none, or a sector that is not there. */
  datatype Found = Cluster(c: nat) | NoCluster | OffDisk

  /** The sector looked at is the one of `best`, but the search inside it starts at its first link each time,
    * while `best` counts on from where it was. */
  function Search(d: seq<Byte>, best: nat, loops: nat): (r: Found)
    ensures r.Cluster? ==> best <= r.c
    decreases loops
  {
    var at := SECTOR_SIZE * (1 + best / LINKS_PER_SECTOR);
    if loops == 0 then NoCluster
    else if |d| < at + SECTOR_SIZE then OffDisk
    else
      var r := FirstZero(Get(d, at, SECTOR_SIZE), 0);
      if r < LINKS_PER_SECTOR then Cluster(best + r) else Search(d, best + LINKS_PER_SECTOR, loops - 1)
  }

  lemma SearchOver(d: seq<Byte>, best: nat)
    ensures Search(d, best, 0) == NoCluster
  {
  }

  /** One round of the search. */
  lemma SearchRound(d: seq<Byte>, best: nat, loops: nat)
    requires loops > 0 && !Search(d, best, loops).OffDisk?
    ensures Search(d, best + LINKS_PER_SECTOR, 0) == NoCluster
    ensures SECTOR_SIZE * (2 + best / LINKS_PER_SECTOR) <= |d|
    ensures var r := FirstZero(Get(d, SECTOR_SIZE * (1 + best / LINKS_PER_SECTOR), SECTOR_SIZE), 0);
            Search(d, best, loops) == if r < LINKS_PER_SECTOR then Cluster(best + r) else Search(d, best + LINKS_PER_SECTOR, loops - 1)
  {
  }

  /** A session never tests the link of the cluster it returns, yet that cluster is fresh and not the directory. */
  lemma SearchFresh(d: seq<Byte>, links: nat, best: nat, files: Files)
    requires Sized(|d|, links) && Fs(VolumeOf(d, links), best, files)
    requires var r := Search(d, best, links); r.Cluster? && r.c < Clusters(|d|, links)
    ensures var c := Search(d, best, links).c;
            0 < c && (best == 0 ==> c == 1) && (best < LINKS_PER_SECTOR ==> best < c) && !Used(VolumeOf(d, links).dir, c)
  {
    hide Dword, Clusters, Fs, VolumeOf, FirstZero, Get;
    var v, c := VolumeOf(d, links), Search(d, best, links).c;
    DirectoryLinkSet(v, best, files);
    if best < LINKS_PER_SECTOR {
      SearchInFirst(d, links, best);
    }
    Fresh(v, best, files, c);
  }

  lemma DirectoryLinkSet(v: Volume, best: nat, files: Files)
    requires Fs(v, best, files)
    ensures |v.link| > 0 && v.link[0] != 0 && (best == 0 && |v.link| > 1 ==> v.link[1] == 0)
  {
    hide ValidName, Apart, Holds;
    if best == 0 && |v.link| > 1 {
      Fresh(v, best, files, 1);
    }
  }

  /** In the first link sector, with the directory's link set, the search does not return the cursor itself; with the
    * next link free it returns cluster 1 from a cursor at 0. */
  lemma SearchInFirst(d: seq<Byte>, links: nat, best: nat)
    requires Sized(|d|, links) && best < LINKS_PER_SECTOR && VolumeOf(d, links).link[0] != 0
    requires Search(d, best, links).Cluster?
    ensures best < Search(d, best, links).c
    ensures best == 0 && VolumeOf(d, links).link[1] == 0 ==> Search(d, best, links).c == 1
  {
    hide Dword, Clusters, VolumeOf, Get;
    SectorLink(d, links, 0, 0);
    SectorLink(d, links, 0, 1);
  }

  /** Link `j` of link sector `s`. */
  lemma SectorLink(d: seq<Byte>, links: nat, s: nat, j: nat)
    requires Sized(|d|, links) && s < links && j < LINKS_PER_SECTOR
    ensures SECTOR_SIZE * (2 + s) <= |d|
    ensures Dword(Get(d, SECTOR_SIZE * (1 + s), SECTOR_SIZE)[4 * j..4 * j + 4]) == VolumeOf(d, links).link[LINKS_PER_SECTOR * s + j]
  {
    hide Dword;
    GetInside(d, SECTOR_SIZE * (1 + s), SECTOR_SIZE, 4 * j, 4);
    assert Get(Get(d, SECTOR_SIZE * (1 + s), SECTOR_SIZE), 4 * j, 4) == Get(d, SECTOR_SIZE * (1 + s), SECTOR_SIZE)[4 * j..4 * j + 4];
    assert LinkAt(d, links, LINKS_PER_SECTOR * s + j) == VolumeOf(d, links).link[LINKS_PER_SECTOR * s + j];
  }

  ghost function Range(lo: nat, n: nat): (s: set<nat>)
    ensures |s| == n && forall c :: c in s <==> lo <= c < lo + n
  {
    if n == 0 then {} else Range(lo, n - 1) + {lo + n - 1}
  }

  lemma SubsetSize(a: set<nat>, b: set<nat>)
    requires a <= b
    ensures |a| <= |b|
  {
    if a != {} {
      var x :| x in a;
      SubsetSize(a - {x}, b - {x});
    }
  }

  /** With a directory entry free, no link sector is full. */
  lemma SomeLinkFree(v: Volume, best: nat, files: Files, s: nat)
    requires Fs(v, best, files) && HasFree(v.dir) && LINKS_PER_SECTOR * (s + 1) <= |v.link|
    ensures exists c :: LINKS_PER_SECTOR * s <= c < LINKS_PER_SECTOR * (s + 1) && v.link[c] == 0
  {
    hide ValidName;
    var lo := LINKS_PER_SECTOR * s;
    if s == 0 {
      if best == 0 {
        Fresh(v, best, files, 2);
      }
      assert v.link[2] == 0;
    } else if forall c :: lo <= c < lo + LINKS_PER_SECTOR ==> v.link[c] != 0 {
      forall c | c in Range(lo, LINKS_PER_SECTOR) ensures c in ClusterSet(v.dir) {
        assert v.link[c] != 0 && Used(v.dir, c);
      }
      SubsetSize(Range(lo, LINKS_PER_SECTOR), ClusterSet(v.dir));
      ClusterSetSize(v.dir);
    }
  }

  /** While 128 clusters remain beyond `best` and the directory has room, the search succeeds in its first sector. */
  lemma RoomToCreate(d: seq<Byte>, links: nat, best: nat, files: Files)
    requires Sized(|d|, links) && Fs(VolumeOf(d, links), best, files)
    requires |files| < MAX_FILECOUNT && best + LINKS_PER_SECTOR <= Clusters(|d|, links)
    ensures var r := Search(d, best, links); r.Cluster? && r.c < best + LINKS_PER_SECTOR
  {
    hide ValidName, Dword, Clusters, Fs, FirstZero, Get, VolumeOf, HasFree;
    var v, s := VolumeOf(d, links), best / LINKS_PER_SECTOR;
    FileCount(v, best, files);
    SomeLinkFree(v, best, files, s);
    var c :| LINKS_PER_SECTOR * s <= c < LINKS_PER_SECTOR * (s + 1) && v.link[c] == 0;
    var j := c - LINKS_PER_SECTOR * s;
    SectorLink(d, links, s, j);
    var sector := Get(d, SECTOR_SIZE * (1 + s), SECTOR_SIZE);
    assert Dword(sector[4 * j..4 * j + 4]) == 0;
    assert FirstZero(sector, 0) < LINKS_PER_SECTOR;
  }
}
