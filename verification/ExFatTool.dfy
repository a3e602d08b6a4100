/** The tool's `Card`: the image's FAT, bitmap and clusters, changed in place. */
module ExFatTool {
  import opened Bytes
  import opened Wrappers
  import opened ExFatEntries
  import opened ExFatCard
  import opened ExFat

  function Clusters(n: nat, size: nat): nat
    requires size > 0
  {
    (n + size - 1) / size
  }

  /** The chains of a card whose FAT and bitmap agree are separate. */
  lemma ChainsSeparate(fat: seq<u32>, bits: seq<bv8>, v: Volume)
    requires |fat| <= END_OF_CHAIN && ChainsOk(fat, bits, v.chains)
    ensures Separate(v)
  {
    forall h | h in v.chains ensures NoRepeat(v.chains[h]) {
      var s := v.chains[h];
      forall i, j | 0 <= i < j < |s| ensures s[i] != s[j] { ChainsAreAcyclic(fat, s, i, j); }
    }
  }

  /** A chain more, of clusters no other chain has, changes nothing that was there. */
  lemma ChainAdded(v: Volume, h: nat, s: seq<nat>)
    requires Sound(v) && h !in v.chains && InHeap(v.heap, s)
    ensures var w := v.(chains := v.chains[h := s]); Sound(w) && Grown(v, w)
  {
    var w := v.(chains := v.chains[h := s]);
    forall g | g in v.chains ensures w.chains[g] == v.chains[g] {}
    assert Mapped(w);
    forall d | d in w.dirs ensures DirHolds(w, d) && Names(w, d) == Names(v, d) {
      assert DirHolds(v, d) && Held(w, d) == Held(v, d);
    }
  }

  /** A chain that reads as zeros becomes an empty directory. */
  lemma DirAdded(v: Volume, h: nat)
    requires Sound(v) && h in v.chains && h !in v.dirs && ZeroFrom(Held(v, h), 0)
    ensures var w := v.(dirs := v.dirs + {h}); Sound(w) && Names(w, h) == []
    ensures var w := v.(dirs := v.dirs + {h}); forall d | d in v.dirs :: Names(w, d) == Names(v, d)
  {
    var w := v.(dirs := v.dirs + {h});
    assert Mapped(w);
    forall d | d in w.dirs ensures DirHolds(w, d) {
      assert Held(w, d) == Held(v, d);
      if d != h { assert DirHolds(v, d); }
    }
  }

  lemma InMap(bits: seq<bv8>, c: nat)
    requires 2 <= c < 8 * |bits| + 2
    ensures InBitmap(bits, c)
  {}

  /** The free clusters below `hi` in order, up to `n` of them. */
  method FindFree(bits: seq<bv8>, hi: nat, n: nat) returns (got: seq<nat>)
    requires n >= 1 && 2 <= hi <= 8 * |bits| + 2
    ensures hi > 2 ==> InBitmap(bits, hi - 1)
    ensures var free := Free(bits, hi); got == if |free| < n then free else free[..n]
  {
    hide Used, InBitmap;
    var c := 2;
    got := [];
    while c < hi && |got| < n
      invariant 2 <= c <= hi && (c > 2 ==> InBitmap(bits, c - 1))
      invariant got == Free(bits, c) && |got| <= n
    {
      InMap(bits, c);
      if !Used(bits, c) {
        got := got + [c];
      }
      c := c + 1;
    }
    if hi > 2 { InMap(bits, hi - 1); }
    FreeGrows(bits, c, hi);
  }

  lemma FirstFreeTaken(bits: seq<bv8>, hi: nat, n: nat)
    requires (hi > 2 ==> InBitmap(bits, hi - 1)) && 1 <= n <= |Free(bits, hi)|
    ensures Taken(bits, Free(bits, hi)[..n])
  {}

  lemma GrownReflexive(v: Volume)
    requires Sound(v)
    ensures Grown(v, v)
  {}

  lemma InHeapOf(v: Volume, h: nat)
    requires Mapped(v) && h in v.chains
    ensures InHeap(v.heap, v.chains[h])
  {}

  lemma DirReads(v: Volume, d: nat)
    requires Sound(v) && d in v.dirs
    ensures DirHolds(v, d) && DirOk(Held(v, d), 0)
  {}

  lemma DirInHeap(v: Volume, d: nat)
    requires Sound(v) && d in v.dirs
    ensures Mapped(v) && d in v.chains && InHeap(v.heap, v.chains[d])
  {}

  /** What happens in and to the chain `h`, new since `a`, is growth as `a` sees it. */
  lemma GrownBeside(a: Volume, v: Volume, w: Volume, h: nat)
    requires Sound(a) && Sound(v) && Sound(w) && Grown(a, v) && h !in a.chains
    requires w.chains == v.chains && forall g | g != h :: g in w.dirs <==> g in v.dirs
    requires forall g | g in v.chains && g != h :: Held(w, g) == Held(v, g)
    ensures Grown(a, w)
  {
    hide DirHolds, Held;
    forall d | d in a.dirs ensures DirHolds(w, d) && Names(a, d) <= Names(w, d) {
      assert d in v.dirs && d in w.dirs && DirHolds(v, d) && DirHolds(w, d) && Held(w, d) == Held(v, d);
    }
  }

  /** `b` holds the data from `lo` on. */
  ghost predicate PieceIn(b: seq<u8>, data: seq<u8>, lo: nat) {
    forall j | 0 <= j < |b| && lo + j < |data| :: b[j] == data[lo + j]
  }

  lemma PieceHasByte(heap: seq<seq<u8>>, size: nat, s: seq<nat>, data: seq<u8>, t: nat)
    requires InHeap(heap, s) && Even(heap, size) && size > 0 && t < |data| <= |s| * size
    requires forall i | 0 <= i < |s| :: PieceIn(heap[s[i] - 2], data, i * size)
    ensures t < |Data(heap, s)| && Data(heap, s)[t] == data[t]
  {
    hide Data;
    var k, j := t / size, t % size;
    Divides(t, size, |s|);
    DataAt(heap, size, s, k, j);
    assert PieceIn(heap[s[k] - 2], data, k * size);
  }

  /** A chain whose clusters each hold their piece holds the data. */
  lemma PiecesMakeData(heap: seq<seq<u8>>, size: nat, s: seq<nat>, data: seq<u8>)
    requires InHeap(heap, s) && Even(heap, size) && size > 0 && |data| <= |s| * size
    requires forall i | 0 <= i < |s| :: PieceIn(heap[s[i] - 2], data, i * size)
    ensures |data| <= |Data(heap, s)| && Data(heap, s)[..|data|] == data
  {
    hide Data, PieceIn;
    DataLength(heap, size, s);
    forall t | 0 <= t < |data| ensures Data(heap, s)[t] == data[t] {
      PieceHasByte(heap, size, s, data, t);
    }
  }

  lemma Below(q: nat, t: nat, size: nat, n: nat)
    requires q * size <= t < n * size
    ensures q < n
  {
    assert q >= n ==> q * size >= n * size;
  }

  lemma Divides(t: nat, size: nat, n: nat)
    requires size > 0 && t < n * size
    ensures t / size < n && t == t / size * size + t % size && t % size < size
  {
    Below(t / size, t, size, n);
  }

  /** Cluster and offset of a set at `end` of a directory of `count` clusters; None when the
      directory is full or the set would cross a cluster. */
  function Place(end: nat, n: nat, count: nat, size: nat): Option<(nat, nat)>
    requires size > 0
  {
    if end + n > count * size then None
    else if end % size + n > size then None
    else Some((end / size, end % size))
  }

  lemma PlaceIs(end: nat, n: nat, count: nat, size: nat)
    requires size > 0 && n > 0
    ensures Place(end, n, count, size).Some? ==>
            (var (k, off) := Place(end, n, count, size).value; k < count && off + n <= size && k * size + off == end)
  {
    if end < count * size { Divides(end, size, count); }
  }

  /** Whether a set of `n` bytes fits at the directory's end marker without crossing a cluster. */
  ghost predicate HasRoom(v: Volume, size: nat, d: nat, n: nat)
    requires Sound(v) && d in v.dirs && size > 0
  {
    Place(Listing(Held(v, d), 0).1, n, |v.chains[d]|, size).Some?
  }

  lemma Covers(n: nat, size: nat)
    requires size > 0
    ensures n <= Clusters(n, size) * size && (n > 0 ==> Clusters(n, size) >= 1)
  {
    var k := n + size - 1;
    assert k == k / size * size + k % size;
  }

  /** A chain allocated since `a` and zeroed is an empty directory beside everything in `a`. */
  lemma NewDir(a: Volume, v: Volume, w: Volume, c: nat, s: seq<nat>)
    requires Sound(a) && Sound(w) && c !in a.chains && InHeap(a.heap, s) && v == a.(chains := a.chains[c := s])
    requires w == v.(heap := w.heap) && ZeroFrom(Held(w, c), 0) && Mapped(v)
    requires forall g | g in v.chains && g != c :: Held(w, g) == Held(v, g)
    ensures var x := w.(dirs := w.dirs + {c});
            && Sound(x) && Grown(a, x) && Names(x, c) == []
            && (forall d | d in a.dirs :: Names(x, d) == Names(a, d))
  {
    var x := w.(dirs := w.dirs + {c});
    assert c !in w.dirs;
    DirAdded(w, c);
    ChainAdded(a, c, s);
    assert forall g | g in a.chains :: Held(v, g) == Held(a, g);
    assert forall g | g in v.chains :: Held(x, g) == Held(w, g);
    forall d | d in a.dirs ensures Names(x, d) == Names(a, d) {
      assert DirHolds(a, d) && DirHolds(x, d) && Held(x, d) == Held(a, d);
    }
    hide DirHolds, Held;
    GrownBeside(a, v, x, c);
  }

  lemma ZeroChain(heap: seq<seq<u8>>, size: nat, c: nat)
    requires InHeap(heap, [c]) && Even(heap, size) && size <= |Data(heap, [c])|
    requires Data(heap, [c])[..size] == seq(size, _ => 0)
    ensures ZeroFrom(Data(heap, [c]), 0)
  {
    DataLength(heap, size, [c]);
    assert Data(heap, [c]) == Data(heap, [c])[..size];
  }

  /** An empty directory `c`, new since `a`; what else there was is as it was. */
  ghost predicate EmptyAdded(a: Volume, x: Volume, c: nat) {
    && Sound(a) && Sound(x) && Grown(a, x) && c !in a.chains && c in x.dirs && c <= 0xFFFF_FFFF && Names(x, c) == []
    && (forall d | d in a.dirs :: Names(x, d) == Names(a, d))
  }

  lemma EmptyAddedKeeps(a: Volume, x: Volume, c: nat)
    requires EmptyAdded(a, x, c)
    ensures Sound(x) && c in x.dirs && c <= 0xFFFF_FFFF && a.dirs <= x.dirs
  {
    hide DirHolds, Held;
  }

  /** An empty directory `c`, new since `a`, listed last in `d` under `name`. */
  ghost predicate DirMade(a: Volume, y: Volume, d: nat, name: seq<u16>, c: nat, size: u32) {
    && Sound(a) && Sound(y) && Grown(a, y) && c !in a.chains && c in y.dirs && c <= 0xFFFF_FFFF && Names(y, c) == []
    && d in a.dirs && |name| <= 255 && Names(y, d) == Names(a, d) + [Entry(name, true, c, size)]
    && OnlyGrew(a, y, d)
  }

  /** No directory but `d` lists more than it did. */
  ghost predicate OnlyGrew(a: Volume, y: Volume, d: nat)
    requires Sound(a) && Sound(y) && Grown(a, y)
  {
    forall g | g in a.dirs && g != d :: Names(y, g) == Names(a, g)
  }

  lemma DirMadeSound(a: Volume, y: Volume, d: nat, name: seq<u16>, c: nat, size: u32)
    requires DirMade(a, y, d, name, c, size)
    ensures Sound(y) && forall g | g in a.chains :: g in y.chains && (g in y.dirs <==> g in a.dirs)
  {}

  lemma NewDirListed(a: Volume, x: Volume, y: Volume, c: nat, d: nat, name: seq<u16>, size: u32)
    requires EmptyAdded(a, x, c) && d in a.dirs && |name| <= 255 && SetAdded(x, y, d, Entry(name, true, c, size))
    ensures DirMade(a, y, d, name, c, size)
  {
    hide DirHolds, Held;
    GrownTransitive(a, x, y);
    forall g | g in x.dirs && g != d ensures Names(y, g) == Names(x, g) {
      SameNames(x, y, g);
    }
  }

  lemma SameNames(v: Volume, w: Volume, g: nat)
    requires Sound(v) && Sound(w) && g in v.dirs && g in w.dirs && Held(w, g) == Held(v, g)
    ensures Names(w, g) == Names(v, g)
  {}

  // ---- Directories made on the way ----

  /** `here` is what `parts` names from the root in `y`: a directory `a` had, and then nothing has
      changed, or one made since, and still empty. */
  ghost predicate DirFound(a: Volume, y: Volume, up: UpCase, root: nat, parts: seq<seq<u16>>, here: nat) {
    && Sound(a) && Sound(y) && Grown(a, y) && root in a.dirs && root in y.dirs
    && Walk(y, up, root, parts) == Some(here)
    && (here in a.dirs ==> y == a)
    && (here !in a.dirs ==> here !in a.chains && Names(y, here) == [])
    && OnlyGrew(a, y, Deepest(a, up, root, parts)) && OneMoreAtMost(a, y, Deepest(a, up, root, parts))
  }

  /** The last directory on the path that is there. */
  ghost function Deepest(v: Volume, up: UpCase, root: nat, parts: seq<seq<u16>>): (d: nat)
    requires Sound(v) && root in v.dirs
    ensures d in v.dirs
  {
    if Walk(v, up, root, parts).Some? then Walk(v, up, root, parts).value
    else Deepest(v, up, root, parts[..|parts| - 1])
  }

  ghost predicate OneMoreAtMost(a: Volume, y: Volume, d: nat)
    requires Sound(a) && Sound(y) && Grown(a, y) && d in a.dirs
  {
    |Names(y, d)| <= |Names(a, d)| + 1
  }

  lemma RootFound(a: Volume, up: UpCase, root: nat)
    requires Sound(a) && root in a.dirs
    ensures DirFound(a, a, up, root, [], root)
  {
    hide DirHolds, Held;
    GrownReflexive(a);
  }

  lemma NextFound(a: Volume, y: Volume, up: UpCase, root: nat, parts: seq<seq<u16>>, part: seq<u16>, here: nat, f: nat)
    requires DirFound(a, y, up, root, parts, here) && FindDir(up, Names(y, here), UpName(up, part)) == Some(f)
    ensures DirFound(a, y, up, root, parts + [part], f)
  {
    hide DirHolds, Held;
    assert (parts + [part])[..|parts|] == parts;
    assert Walk(y, up, root, parts + [part]) == Some(f);
    assert here in a.dirs;
  }

  lemma NextMade(a: Volume, y: Volume, z: Volume, up: UpCase, root: nat, parts: seq<seq<u16>>, part: seq<u16>,
                 here: nat, c: nat, size: u32)
    requires DirFound(a, y, up, root, parts, here) && FindDir(up, Names(y, here), UpName(up, part)).None?
    requires DirMade(y, z, here, part, c, size)
    ensures DirFound(a, z, up, root, parts + [part], c)
  {
    hide DirHolds, Held, Walk, Deepest;
    GrownTransitive(a, y, z);
    WalkOneMore(y, z, up, root, parts, part, here, Entry(part, true, c, size));
    DeepestOneMore(a, y, up, root, parts, part, here);
  }

  lemma WalkOneMore(y: Volume, z: Volume, up: UpCase, root: nat, parts: seq<seq<u16>>, part: seq<u16>,
                    here: nat, e: Entry)
    requires Sound(y) && Sound(z) && Grown(y, z) && root in y.dirs && root in z.dirs && e.directory && e.units == part
    requires Walk(y, up, root, parts) == Some(here) && FindDir(up, Names(y, here), UpName(up, part)).None?
    requires Names(z, here) == Names(y, here) + [e]
    ensures Walk(z, up, root, parts + [part]) == Some(e.first)
  {
    hide DirHolds, Held;
    WalkGrows(y, z, up, root, parts);
    FindDirIn(up, Names(y, here), [e], UpName(up, part));
    assert [e][1..] == [];
    assert (parts + [part])[..|parts|] == parts;
  }

  /** A part that is missing leaves the last directory there where it was. */
  lemma DeepestOneMore(a: Volume, y: Volume, up: UpCase, root: nat, parts: seq<seq<u16>>, part: seq<u16>, here: nat)
    requires Sound(a) && Sound(y) && Grown(a, y) && root in a.dirs && root in y.dirs
    requires Walk(y, up, root, parts) == Some(here) && (here in a.dirs ==> y == a)
    requires FindDir(up, Names(y, here), UpName(up, part)).None?
    ensures Deepest(a, up, root, parts + [part]) == Deepest(a, up, root, parts)
    ensures here in a.dirs ==> Deepest(a, up, root, parts) == here
  {
    hide DirHolds, Held;
    assert (parts + [part])[..|parts|] == parts;
    if Walk(a, up, root, parts).Some? { WalkGrows(a, y, up, root, parts); }
  }

  lemma {:induction false} WalkPrefix(v: Volume, up: UpCase, root: nat, parts: seq<seq<u16>>, i: nat)
    requires Sound(v) && root in v.dirs && i <= |parts| && Walk(v, up, root, parts).Some?
    ensures Walk(v, up, root, parts[..i]).Some?
    decreases |parts|
  {
    hide DirHolds, Held;
    if i < |parts| {
      WalkPrefix(v, up, root, parts[..|parts| - 1], i);
      assert parts[..|parts| - 1][..i] == parts[..i];
    } else {
      assert parts[..i] == parts;
    }
  }

  /** Where the whole path was there, its next part is. */
  lemma NextIsThere(a: Volume, y: Volume, up: UpCase, root: nat, parts: seq<seq<u16>>, i: nat, here: nat)
    requires i < |parts| && DirFound(a, y, up, root, parts[..i], here) && y == a && Walk(a, up, root, parts).Some?
    ensures FindDir(up, Names(y, here), UpName(up, parts[i])).Some?
  {
    hide DirHolds, Held;
    WalkPrefix(a, up, root, parts, i + 1);
    assert parts[..i + 1][..i] == parts[..i];
  }

  lemma FoundNames(a: Volume, y: Volume, up: UpCase, root: nat, parts: seq<seq<u16>>, here: nat)
    requires DirFound(a, y, up, root, parts, here)
    ensures Sound(y) && root in y.dirs && Walk(y, up, root, parts) == Some(here)
  {
    hide DirHolds, Held, Walk;
  }

  lemma FoundKeeps(a: Volume, y: Volume, up: UpCase, root: nat, parts: seq<seq<u16>>, here: nat)
    requires DirFound(a, y, up, root, parts, here)
    ensures Sound(y) && here in y.dirs && DirHolds(y, here)
  {
    hide Held;
  }

  lemma HeldNames(v: Volume, d: nat)
    requires Sound(v) && d in v.dirs
    ensures Mapped(v) && DirHolds(v, d) && DirOk(Held(v, d), 0) && Names(v, d) == Listing(Held(v, d), 0).0
  {}

  // ---- A file added ----

  /** `first` holds `data`, chained since `y`; what else there was is as it was. */
  ghost predicate FileStored(y: Volume, w: Volume, first: nat, data: seq<u8>, size: nat) {
    && Sound(y) && Sound(w) && Grown(y, w) && w.dirs == y.dirs
    && (forall d | d in y.dirs :: Held(w, d) == Held(y, d))
    && first <= 0xFFFF_FFFF && (data == [] ==> first == 0 && w == y)
    && size > 0
    && (data != [] ==>
          && first !in y.chains && first in w.chains && data <= Held(w, first)
          && |w.chains[first]| == Clusters(|data|, size))
  }

  lemma StoredKeeps(y: Volume, w: Volume, first: nat, data: seq<u8>, size: nat)
    requires FileStored(y, w, first, data, size)
    ensures Sound(w) && w.dirs == y.dirs && first <= 0xFFFF_FFFF
  {}

  lemma StoredKeepsRoom(y: Volume, w: Volume, first: nat, data: seq<u8>, size: nat, d: nat, n: nat)
    requires FileStored(y, w, first, data, size) && d in y.dirs
    ensures Sound(w) && d in w.dirs && HasRoom(w, size, d, n) == HasRoom(y, size, d, n)
  {
    hide DirHolds, Held, Listing, Place;
    assert d in y.chains && w.chains[d] == y.chains[d];
  }

  lemma SetAddedKeeps(v: Volume, w: Volume, d: nat, e: Entry)
    requires SetAdded(v, w, d, e)
    ensures Sound(w) && w.dirs == v.dirs && w.chains == v.chains
  {}

  lemma NewFile(y: Volume, v: Volume, w: Volume, c: nat, s: seq<nat>, data: seq<u8>, size: nat)
    requires size > 0 && |s| == Clusters(|data|, size)
    requires Sound(y) && Sound(w) && c !in y.chains && c <= 0xFFFF_FFFF && InHeap(y.heap, s)
    requires v == y.(chains := y.chains[c := s]) && w == v.(heap := w.heap) && Mapped(v) && data != []
    requires |data| <= |Held(w, c)| && Held(w, c)[..|data|] == data
    requires forall g | g in v.chains && g != c :: Held(w, g) == Held(v, g)
    ensures FileStored(y, w, c, data, size)
  {
    ChainAdded(y, c, s);
    assert forall g | g in y.chains :: Held(v, g) == Held(y, g);
    assert forall d | d in y.dirs :: Held(w, d) == Held(y, d);
    hide DirHolds, Held;
    GrownBeside(y, v, w, c);
  }

  /** The file stands on the card: its path's directory lists it with its length, and its chain, of no
      more clusters than it needs, holds its data. */
  ghost predicate FileThere(v: Volume, up: UpCase, root: nat, size: nat, parts: seq<seq<u16>>, data: seq<u8>,
                            dir: nat, first: nat)
  {
    && Sound(v) && root in v.dirs && parts != [] && size > 0
    && first <= 0xFFFF_FFFF && |data| <= 0xFFFF_FFFF_FFFF_FFFF
    && Walk(v, up, root, parts[..|parts| - 1]) == Some(dir)
    && Entry(parts[|parts| - 1], false, first, |data|) in Names(v, dir)
    && (data == [] ==> first == 0)
    && (data != [] ==>
          && first in v.chains && first !in v.dirs && data <= Held(v, first)
          && |v.chains[first]| == Clusters(|data|, size))
  }

  /** After a file was added: it stands on the card, last in its directory after what was listed there;
      all that was on the card is there unchanged; and no directory lists more but the last one of the
      path that was there, which lists one set more. */
  ghost predicate FileAdded(a: Volume, z: Volume, up: UpCase, root: nat, size: nat, parts: seq<seq<u16>>,
                            data: seq<u8>, dir: nat, first: nat)
  {
    && FileThere(z, up, root, size, parts, data, dir, first) && Sound(a) && Grown(a, z) && root in a.dirs
    && Names(z, dir) == (if dir in a.dirs then Names(a, dir) else [])
                        + [Entry(parts[|parts| - 1], false, first, |data|)]
    && (data != [] ==> first !in a.chains)
    && var d := Deepest(a, up, root, parts[..|parts| - 1]); OnlyGrew(a, z, d) && OneMoreAtMost(a, z, d)
  }

  lemma FileListed(a: Volume, y: Volume, w: Volume, z: Volume, up: UpCase, root: nat, size: nat, parts: seq<seq<u16>>,
                   data: seq<u8>, dir: nat, first: nat)
    requires parts != [] && DirFound(a, y, up, root, parts[..|parts| - 1], dir)
    requires FileStored(y, w, first, data, size) && |data| <= 0xFFFF_FFFF_FFFF_FFFF
    requires SetAdded(w, z, dir, Entry(parts[|parts| - 1], false, first, |data|))
    ensures FileAdded(a, z, up, root, size, parts, data, dir, first)
  {
    hide DirHolds, Held, Walk, Deepest, OnlyGrew, OneMoreAtMost;
    GrownTransitive(a, y, w);
    GrownTransitive(a, w, z);
    GrownTransitive(y, w, z);
    WalkGrows(y, z, up, root, parts[..|parts| - 1]);
    StoredNames(y, w, first, data, size);
    GrewOnlyThere(a, y, w, z, up, root, parts[..|parts| - 1], dir, Entry(parts[|parts| - 1], false, first, |data|));
    assert data != [] ==> first != dir;
  }

  lemma StoredNames(y: Volume, w: Volume, first: nat, data: seq<u8>, size: nat)
    requires FileStored(y, w, first, data, size)
    ensures forall g | g in y.dirs :: g in w.dirs && Names(w, g) == Names(y, g)
  {
    hide DirHolds, Held;
    forall g | g in y.dirs ensures g in w.dirs && Names(w, g) == Names(y, g) { SameNames(y, w, g); }
  }

  lemma GrewOnlyThere(a: Volume, y: Volume, w: Volume, z: Volume, up: UpCase, root: nat, parts: seq<seq<u16>>,
                      dir: nat, e: Entry)
    requires DirFound(a, y, up, root, parts, dir) && Sound(w) && Grown(y, w) && SetAdded(w, z, dir, e) && Grown(a, z)
    requires forall g | g in y.dirs :: g in w.dirs && Names(w, g) == Names(y, g)
    ensures var d := Deepest(a, up, root, parts); OnlyGrew(a, z, d) && OneMoreAtMost(a, z, d)
  {
    hide DirHolds, Held, Walk, Deepest;
    if dir in a.dirs { DeepestFound(a, y, up, root, parts, dir); }
    forall g | g in w.dirs && g != dir ensures Names(z, g) == Names(w, g) { SameNames(w, z, g); }
  }

  lemma DeepestFound(a: Volume, y: Volume, up: UpCase, root: nat, parts: seq<seq<u16>>, here: nat)
    requires DirFound(a, y, up, root, parts, here) && here in a.dirs
    ensures Deepest(a, up, root, parts) == here
  {
    hide DirHolds, Held;
  }

  /** The data from the `k`-th cluster on: that one's, and the rest. */
  lemma DataFrom(heap: seq<seq<u8>>, s: seq<nat>, k: nat)
    requires InHeap(heap, s) && k <= |s|
    ensures Data(heap, s[k..]) == if k == |s| then [] else heap[s[k] - 2] + Data(heap, s[k + 1..])
  {
    if k < |s| { assert s[k..][0] == s[k] && s[k..][1..] == s[k + 1..]; }
  }

  function BitmapBytes(bits: seq<bv8>): (r: seq<u8>)
    ensures |r| == |bits| && forall i :: 0 <= i < |r| ==> r[i] == bits[i] as int
  {
    seq(|bits|, i requires 0 <= i < |bits| => bits[i] as int)
  }

  class Card {
    const count: nat
    const cluster: nat
    const root: nat
    const bitmap: nat
    const up: UpCase
    var fat: seq<u32>
    var bits: seq<bv8>
    var heap: seq<seq<u8>>
    ghost var chains: map<nat, seq<nat>>
    ghost var dirs: set<nat>

    ghost function Vol(): Volume
      reads this
    {
      Volume(heap, chains, dirs)
    }

    ghost predicate Sized()
      reads this
    {
      && 0 < cluster < 0x1_0000_0000 && |fat| == count + 2 <= END_OF_CHAIN && |heap| == count && Even(heap, cluster)
      && count <= 8 * |bits|
    }

    ghost predicate Valid()
      reads this
    {
      && Sized() && ChainsOk(fat, bits, chains) && Sound(Vol())
      && root in dirs && bitmap in chains && bitmap !in dirs
    }

    /** The chain from `c`, walked through the FAT. */
    method Chain(c: nat) returns (out: seq<nat>)
      requires Sized() && ChainsOk(fat, bits, chains) && c in chains
      ensures out == chains[c]
    {
      ghost var s := chains[c];
      var at := c;
      out := [];
      while at != END_OF_CHAIN
        invariant |out| <= |s| && out == s[..|out|]
        invariant at == if |out| < |s| then s[|out|] else END_OF_CHAIN
        decreases |s| - |out|
      {
        ghost var k := |out|;
        assert fat[s[k]] == if k + 1 < |s| then s[k + 1] else END_OF_CHAIN;
        out := out + [at];
        at := fat[at];
      }
    }

    /** The first `n` free clusters, marked and chained; None, and nothing changed, when the card
        has fewer. */
    method Alloc(n: nat) returns (r: Option<seq<nat>>)
      requires n >= 1 && Sized() && ChainsOk(fat, bits, chains) && Sound(Vol())
      modifies this`fat, this`bits, this`chains
      ensures Sized() && ChainsOk(fat, bits, chains) && Sound(Vol()) && Grown(old(Vol()), Vol())
      ensures r.None? <==> |Free(old(bits), count + 2)| < n
      ensures r.None? ==> fat == old(fat) && bits == old(bits) && chains == old(chains)
      ensures |bits| == old(|bits|)
      ensures r.Some? ==>
                && r.value == Free(old(bits), count + 2)[..n]
                && MarksExactly(old(bits), bits, r.value)
                && (forall c | 0 <= c < |fat| && c !in r.value :: fat[c] == old(fat)[c])
                && IsChain(fat, r.value)
                && r.value[0] !in old(chains) && chains == old(chains)[r.value[0] := r.value]
    {
      hide Used, Even, Sound, Grown, Mapped, IsChain, ChainsOk, MarksExactly, Taken, Free;
      var got := FindFree(bits, count + 2, n);
      if |got| < n {
        GrownReflexive(Vol());
        return None;
      }
      FirstFreeTaken(bits, count + 2, n);
      ChainUp(got);
      ChainsGrow(old(fat), old(bits), chains, fat, bits, got);
      ChainAdded(old(Vol()), got[0], got);
      chains := chains[got[0] := got];
      r := Some(got);
    }

    /** Each cluster marked, and its FAT entry set to the next. */
    method ChainUp(got: seq<nat>)
      requires Taken(bits, got) && |fat| <= END_OF_CHAIN && forall i | 0 <= i < |got| :: got[i] < |fat|
      modifies this`fat, this`bits
      ensures |fat| == old(|fat|) && forall c | 0 <= c < |fat| && c !in got :: fat[c] == old(fat)[c]
      ensures IsChain(fat, got) && MarksExactly(old(bits), bits, got) && |bits| == old(|bits|)
    {
      hide Used, Mark;
      assert got[..0] == [];
      for k := 0 to |got|
        invariant |fat| == old(|fat|) && forall c | 0 <= c < |fat| && c !in got[..k] :: fat[c] == old(fat)[c]
        invariant forall i | 0 <= i < k :: fat[got[i]] == if i + 1 < |got| then got[i + 1] else END_OF_CHAIN
        invariant MarksExactly(old(bits), bits, got[..k])
      {
        ghost var was := bits;
        assert got[..k + 1] == got[..k] + [got[k]];
        bits := Mark(bits, got[k]);
        fat := fat[got[k] := if k + 1 < |got| then got[k + 1] else END_OF_CHAIN];
        forall c: nat | InBitmap(old(bits), c) ensures Used(bits, c) <==> c in got[..k + 1] || Used(old(bits), c) {
          MarkUses(was, got[k], c);
        }
      }
      assert got[..|got|] == got;
    }

    method PutPiece(c: nat, data: seq<u8>, lo: nat)
      requires Even(heap, cluster) && 2 <= c < |heap| + 2
      modifies this`heap
      ensures Even(heap, cluster) && ChangedIn(old(heap), heap, [c]) && PieceIn(heap[c - 2], data, lo)
    {
      if lo < |data| {
        var piece := data[lo..if lo + cluster <= |data| then lo + cluster else |data|];
        heap := heap[c - 2 := Patched(heap[c - 2], 0, piece)];
      }
    }

    /** `data` over the clusters, one at a time; the last one it reaches keeps its tail. */
    method PutPieces(clusters: seq<nat>, data: seq<u8>)
      requires Even(heap, cluster) && InHeap(heap, clusters) && NoRepeat(clusters)
      modifies this`heap
      ensures Even(heap, cluster) && ChangedIn(old(heap), heap, clusters)
      ensures forall i | 0 <= i < |clusters| :: PieceIn(heap[clusters[i] - 2], data, i * cluster)
    {
      hide Even, PieceIn;
      for k := 0 to |clusters|
        invariant Even(heap, cluster) && ChangedIn(old(heap), heap, clusters)
        invariant forall i | 0 <= i < k :: PieceIn(heap[clusters[i] - 2], data, i * cluster)
      {
        assert clusters[k] in clusters;
        PutPiece(clusters[k], data, k * cluster);
      }
    }

    /** `data` written over a file's chain: it then holds it, and nothing else changes. */
    method WritePieces(clusters: seq<nat>, data: seq<u8>, ghost h: nat)
      requires Sized() && ChainsOk(fat, bits, chains) && Sound(Vol())
      requires h in chains && h !in dirs && clusters == chains[h] && |data| <= |clusters| * cluster
      modifies this`heap
      ensures Sized() && Sound(Vol()) && |data| <= |Held(Vol(), h)| && Held(Vol(), h)[..|data|] == data
      ensures forall g | g in chains && g != h :: Held(Vol(), g) == old(Held(Vol(), g))
    {
      hide ChainsOk, PieceIn, Even, NoRepeat;
      ghost var was := Vol();
      ChainsSeparate(fat, bits, was);
      InHeapOf(was, h);
      assert NoRepeat(clusters);
      PutPieces(clusters, data);
      PiecesMakeData(heap, cluster, clusters, data);
      FileWriteKeeps(was, heap, h);
      assert Vol() == was.(heap := heap);
    }

    method ClustersOf(c: nat) returns (data: seq<u8>)
      requires Sized() && ChainsOk(fat, bits, chains) && Mapped(Vol()) && c in chains
      ensures data == Held(Vol(), c)
    {
      hide ChainsOk, Data;
      var clusters := Chain(c);
      InHeapOf(Vol(), c);
      data := [];
      assert clusters[0..] == clusters;
      for k := 0 to |clusters|
        invariant data + Data(heap, clusters[k..]) == Data(heap, clusters)
      {
        DataFrom(heap, clusters, k);
        data := data + heap[clusters[k] - 2];
      }
      DataFrom(heap, clusters, |clusters|);
    }

    /** Whether a set of `n` bytes fits at the directory's end marker without crossing a cluster. */
    ghost predicate Fits(d: nat, n: nat)
      requires Sized() && Sound(Vol()) && d in dirs
      reads this
    {
      HasRoom(Vol(), cluster, d, n)
    }

    method PlaceFor(d: nat, n: nat) returns (r: Option<(nat, nat)>)
      requires Sized() && ChainsOk(fat, bits, chains) && Sound(Vol()) && d in dirs && n > 0
      ensures r.Some? <==> Fits(d, n)
      ensures r.Some? ==> RoomAt(Vol(), cluster, d, r.value.0, r.value.1, n)
      ensures r.Some? ==> r.value.0 < |chains[d]| && r.value.1 + n <= cluster
    {
      hide ChainsOk, Listing, Place, Sound, DirOk;
      DirInHeap(Vol(), d);
      DirReads(Vol(), d);
      var data := ClustersOf(d);
      var _, end := Entries(data);
      var clusters := Chain(d);
      PlaceIs(end, n, |clusters|, cluster);
      r := Place(end, n, |clusters|, cluster);
    }

    /** A set at the directory's end marker; false, and nothing written, if the directory is full
        or the set would cross a cluster. */
    method AddSet(d: nat, s: seq<u8>, ghost e: Entry) returns (ok: bool)
      requires Sized() && ChainsOk(fat, bits, chains) && Sound(Vol()) && d in dirs
      requires |e.units| <= 255 && s == EntrySet(up, e) && (e.directory ==> e.first in dirs)
      modifies this`heap
      ensures ok <==> old(Fits(d, |s|))
      ensures !ok ==> heap == old(heap)
      ensures Sized() && (ok ==> SetAdded(old(Vol()), Vol(), d, e))
    {
      hide EntrySet, ChainsOk, Sound, Separate, SetAdded, Fits, RoomAt;
      ghost var was := Vol();
      ChainsSeparate(fat, bits, was);
      DirInHeap(was, d);
      var place := PlaceFor(d, |s|);
      if place.None? {
        return false;
      }
      var clusters := Chain(d);
      var (k, off) := place.value;
      SetAdds(was, cluster, up, d, e, k, off);
      heap := PatchHeap(heap, clusters[k], off, s);
      assert Vol() == was.(heap := heap);
      ok := true;
    }

    /** A cluster allocated and zeroed: an empty directory, not yet in any other. */
    method EmptyDir() returns (r: Option<nat>)
      requires Valid()
      modifies this
      ensures |bits| == old(|bits|)
      ensures r.None? <==> Free(old(bits), count + 2) == []
      ensures r.Some? ==> Valid() && EmptyAdded(old(Vol()), Vol(), r.value)
    {
      ghost var a := Vol();
      hide Used, Grown, ChainsOk, MarksExactly, Taken, Free, Held, DirHolds;
      var got := Alloc(1);
      if got.None? {
        return None;
      }
      var c := got.value[0];
      assert got.value == [c];
      ghost var v := Vol();
      assert InHeap(heap, [c]);
      WritePieces(got.value, seq(cluster, _ => 0), c);
      HeldIs(Vol(), c);
      ZeroChain(heap, cluster, c);
      NewDir(a, v, Vol(), c, [c]);
      dirs := dirs + {c};
      r := Some(c);
    }

    /** A directory made in `parent`: one cluster, zeroed, chained and marked, and its set. None is
        the tool giving up: the card or the parent full, or the name past 255 units. */
    method MakeDir(parent: nat, name: seq<u16>) returns (r: Option<nat>)
      requires Valid() && parent in dirs
      modifies this
      ensures |bits| == old(|bits|)
      ensures r.Some? ==> Valid() && DirMade(old(Vol()), Vol(), parent, name, r.value, cluster)
    {
      hide EntrySet, Sound, ChainsOk, EmptyAdded, SetAdded, DirMade;
      ghost var a := Vol();
      var dir := EmptyDir();
      if dir.None? || |name| > 255 {
        return None;
      }
      var c := dir.value;
      ghost var x := Vol();
      EmptyAddedKeeps(a, x, c);
      var s := BuildEntrySet(up, Entry(name, true, c, cluster));
      var ok := AddSet(parent, s[..], Entry(name, true, c, cluster));
      if !ok {
        return None;
      }
      NewDirListed(a, x, Vol(), c, parent, name, cluster);
      DirMadeSound(a, Vol(), parent, name, c, cluster);
      r := Some(c);
    }

    method Lookup(es: seq<Entry>, part: seq<u16>) returns (r: Option<nat>)
      ensures r == FindDir(up, es, UpName(up, part))
    {
      var want := UpName(up, part);
      assert es[0..] == es;
      for i := 0 to |es|
        invariant FindDir(up, es[i..], want) == FindDir(up, es, want)
      {
        assert es[i..][0] == es[i] && es[i..][1..] == es[i + 1..];
        if es[i].directory && UpName(up, es[i].units) == want {
          return Some(es[i].first);
        }
      }
      r := None;
    }

    method ListDir(d: nat) returns (es: seq<Entry>)
      requires Valid() && d in dirs && DirHolds(Vol(), d)
      ensures es == Names(Vol(), d)
    {
      hide ChainsOk, DirHolds, DirOk, Listing, Held;
      HeldNames(Vol(), d);
      var data := ClustersOf(d);
      var end;
      es, end := Entries(data);
    }

    /** The directory `parts` names, made where missing; None is the tool giving up. */
    method DirOf(parts: seq<seq<u16>>) returns (r: Option<nat>)
      requires Valid()
      modifies this
      ensures |bits| == old(|bits|)
      ensures r.Some? ==> Valid() && DirFound(old(Vol()), Vol(), up, root, parts, r.value)
      ensures old(Walk(Vol(), up, root, parts).Some?) ==>
                Vol() == old(Vol()) && bits == old(bits) && r == old(Walk(Vol(), up, root, parts))
    {
      hide ChainsOk, DirFound, DirMade, Sound, DirHolds, Walk;
      ghost var there := Walk(Vol(), up, root, parts).Some?;
      var here, i := root, 0;
      RootFound(Vol(), up, root);
      assert parts[..0] == [];
      while i < |parts|
        invariant 0 <= i <= |parts| && Valid()
        invariant |bits| == old(|bits|)
        invariant DirFound(old(Vol()), Vol(), up, root, parts[..i], here)
        invariant there ==> Vol() == old(Vol()) && bits == old(bits)
      {
        ghost var y := Vol();
        if there { NextIsThere(old(Vol()), y, up, root, parts, i, here); }
        FoundKeeps(old(Vol()), y, up, root, parts[..i], here);
        assert parts[..i + 1] == parts[..i] + [parts[i]];
        var es := ListDir(here);
        var hit := Lookup(es, parts[i]);
        if hit.Some? {
          NextFound(old(Vol()), y, up, root, parts[..i], parts[i], here, hit.value);
          here := hit.value;
        } else {
          var made := MakeDir(here, parts[i]);
          if made.None? {
            return None;
          }
          NextMade(old(Vol()), y, Vol(), up, root, parts[..i], parts[i], here, made.value, cluster);
          here := made.value;
        }
        i := i + 1;
      }
      assert parts[..|parts|] == parts;
      FoundNames(old(Vol()), Vol(), up, root, parts, here);
      r := Some(here);
    }

    /** Clusters for `data`, chained and filled; no data needs none. */
    method Store(data: seq<u8>) returns (r: Option<nat>)
      requires Valid()
      modifies this
      ensures |bits| == old(|bits|)
      ensures r.None? <==> data != [] && |Free(old(bits), count + 2)| < Clusters(|data|, cluster)
      ensures r.Some? ==> Valid() && FileStored(old(Vol()), Vol(), r.value, data, cluster)
    {
      hide Used, ChainsOk, MarksExactly, Taken, Free, Held, DirHolds, Grown;
      ghost var y := Vol();
      if data == [] {
        GrownReflexive(y);
        return Some(0);
      }
      Covers(|data|, cluster);
      var got := Alloc(Clusters(|data|, cluster));
      if got.None? {
        return None;
      }
      var c := got.value[0];
      ghost var v := Vol();
      assert InHeap(heap, got.value);
      WritePieces(got.value, data, c);
      NewFile(y, v, Vol(), c, got.value, data, cluster);
      r := Some(c);
    }

    /** A file put at `parts` on the card: its directory and its first cluster. None is the tool
        giving up, and only then is nothing promised of the card; into a directory that is there it
        gives up exactly when the card or the directory lacks the room. */
    method Add(data: seq<u8>, parts: seq<seq<u16>>) returns (r: Option<(nat, nat)>)
      requires Valid() && |data| < 0x1_0000_0000_0000_0000
      modifies this
      ensures |bits| == old(|bits|)
      ensures r.Some? ==> Valid() && FileAdded(old(Vol()), Vol(), up, root, cluster, parts, data, r.value.0, r.value.1)
      ensures old(Reaches(parts)) ==> (r.Some? <==> old(TakesFile(|data|, parts)))
    {
      hide EntrySet, Sound, ChainsOk, DirFound, FileStored, SetAdded, FileAdded, Free, Walk, HasRoom, Clusters;
      if parts == [] {
        return None;
      }
      var n := |parts| - 1;
      ghost var a := Vol();
      var dir := DirOf(parts[..n]);
      if dir.None? {
        return None;
      }
      ghost var y := Vol();
      FoundKeeps(a, y, up, root, parts[..n], dir.value);
      var first := Store(data);
      if first.None? || |parts[n]| > 255 {
        return None;
      }
      ghost var w := Vol();
      StoredKeeps(y, w, first.value, data, cluster);
      StoredKeepsRoom(y, w, first.value, data, cluster, dir.value, 32 * (2 + NameEntries(|parts[n]|)));
      var e := Entry(parts[n], false, first.value, |data|);
      var s := BuildEntrySet(up, e);
      var ok := AddSet(dir.value, s[..], e);
      if !ok {
        return None;
      }
      SetAddedKeeps(w, Vol(), dir.value, e);
      FileListed(a, y, w, Vol(), up, root, cluster, parts, data, dir.value, first.value);
      r := Some((dir.value, first.value));
    }

    /** The path's directories are all there, and its name is one a set can hold. */
    ghost predicate Reaches(parts: seq<seq<u16>>)
      requires Valid()
      reads this
    {
      parts != [] && |parts[|parts| - 1]| <= 255 && Walk(Vol(), up, root, parts[..|parts| - 1]).Some?
    }

    /** Clusters enough for the data, and room in the directory for the set. */
    ghost predicate TakesFile(length: nat, parts: seq<seq<u16>>)
      requires Valid() && Reaches(parts)
      reads this
    {
      var n := |parts| - 1;
      && (length == 0 || Clusters(length, cluster) <= |Free(bits, count + 2)|)
      && Fits(Walk(Vol(), up, root, parts[..n]).value, 32 * (2 + NameEntries(|parts[n]|)))
    }

    /** The bitmap put back in its file: reading the card again gives the bits as they are. */
    method Close()
      requires Valid() && |bits| <= |chains[bitmap]| * cluster
      modifies this`heap
      ensures Valid() && |bits| <= |Held(Vol(), bitmap)|
      ensures forall i | 0 <= i < |bits| :: Held(Vol(), bitmap)[i] == bits[i] as int
      ensures forall g | g in chains && g != bitmap :: Held(Vol(), g) == old(Held(Vol(), g))
    {
      hide ChainsOk, DirHolds, Even, Held, InHeap;
      var clusters := Chain(bitmap);
      var bytes := BitmapBytes(bits);
      WritePieces(clusters, bytes, bitmap);
      ghost var held := Held(Vol(), bitmap);
      assert forall i | 0 <= i < |bits| :: held[..|bits|][i] == bytes[i];
    }
  }
}
