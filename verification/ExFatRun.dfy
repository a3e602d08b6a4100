/** A whole run of the tool: files put on a card one after another, and the card closed. */
module ExFatRun {
  import opened Bytes
  import opened Wrappers
  import opened ExFatEntries
  import opened ExFatCard
  import opened ExFat
  import opened ExFatTool

  datatype File = File(parts: seq<seq<u16>>, data: seq<u8>)

  /** The directory and first cluster a file was given. */
  datatype Place = Place(dir: nat, first: nat)

  /** A file that stands on a card stands on it still once the card has grown. */
  lemma FileStays(a: Volume, b: Volume, up: UpCase, root: nat, size: nat, f: File, p: Place)
    requires FileThere(a, up, root, size, f.parts, f.data, p.dir, p.first) && Sound(b) && Grown(a, b) && root in b.dirs
    ensures FileThere(b, up, root, size, f.parts, f.data, p.dir, p.first)
  {
    hide DirHolds, Held, Walk, Clusters;
    WalkGrows(a, b, up, root, f.parts[..|f.parts| - 1]);
    var was, now := Names(a, p.dir), Names(b, p.dir);
    assert now[..|was|] == was;
  }

  ghost predicate AllThere(v: Volume, up: UpCase, root: nat, size: nat, files: seq<File>, places: seq<Place>) {
    && |places| == |files|
    && forall i :: 0 <= i < |files| ==>
         FileThere(v, up, root, size, files[i].parts, files[i].data, places[i].dir, places[i].first)
  }

  lemma AllStay(a: Volume, b: Volume, up: UpCase, root: nat, size: nat, files: seq<File>, places: seq<Place>)
    requires AllThere(a, up, root, size, files, places) && Sound(b) && Sound(a) && Grown(a, b) && root in b.dirs
    ensures AllThere(b, up, root, size, files, places)
  {
    hide FileThere, Sound, Grown;
    forall i | 0 <= i < |files|
      ensures FileThere(b, up, root, size, files[i].parts, files[i].data, places[i].dir, places[i].first)
    {
      FileStays(a, b, up, root, size, files[i], places[i]);
    }
  }

  lemma {:induction false} WalkSame(a: Volume, b: Volume, up: UpCase, root: nat, parts: seq<seq<u16>>)
    requires Sound(a) && Sound(b) && a.dirs == b.dirs && root in a.dirs
    requires forall d | d in a.dirs :: Names(b, d) == Names(a, d)
    ensures Walk(b, up, root, parts) == Walk(a, up, root, parts)
    decreases |parts|
  {
    hide DirHolds, Held;
    if parts != [] { WalkSame(a, b, up, root, parts[..|parts| - 1]); }
  }

  /** A write to one chain that is neither a directory nor a file's leaves every file. */
  lemma FilesBeside(a: Volume, b: Volume, h: nat, up: UpCase, root: nat, size: nat, f: File, p: Place)
    requires FileThere(a, up, root, size, f.parts, f.data, p.dir, p.first) && Sound(b)
    requires b.chains == a.chains && b.dirs == a.dirs && h !in a.dirs && (f.data != [] ==> p.first != h)
    requires forall g | g in a.chains && g != h :: Held(b, g) == Held(a, g)
    ensures FileThere(b, up, root, size, f.parts, f.data, p.dir, p.first)
  {
    hide DirHolds, Held, Walk, Clusters;
    forall d | d in a.dirs ensures Names(b, d) == Names(a, d) { SameNames(a, b, d); }
    WalkSame(a, b, up, root, f.parts[..|f.parts| - 1]);
  }

  /** Everything that was on the card, and the files put so far, none of them on the bitmap's chain. */
  ghost predicate SoFar(a: Volume, v: Volume, bitmap: nat, up: UpCase, root: nat, size: nat, files: seq<File>,
                        places: seq<Place>)
  {
    && Sound(a) && Sound(v) && Grown(a, v) && root in v.dirs && bitmap in a.chains
    && AllThere(v, up, root, size, files, places)
    && forall i :: 0 <= i < |files| ==> files[i].data != [] ==> places[i].first != bitmap
  }

  lemma OneFileMore(a: Volume, v: Volume, w: Volume, bitmap: nat, up: UpCase, root: nat, size: nat, files: seq<File>,
                    places: seq<Place>, f: File, p: Place)
    requires SoFar(a, v, bitmap, up, root, size, files, places)
    requires FileAdded(v, w, up, root, size, f.parts, f.data, p.dir, p.first)
    ensures SoFar(a, w, bitmap, up, root, size, files + [f], places + [p])
  {
    hide Held, DirHolds, Walk, Clusters, FileThere, Deepest, OnlyGrew, OneMoreAtMost;
    FileThereSound(w, up, root, size, f, p);
    GrownTransitive(a, v, w);
    AllStay(v, w, up, root, size, files, places);
    var fs, ps := files + [f], places + [p];
    forall i | 0 <= i < |fs|
      ensures FileThere(w, up, root, size, fs[i].parts, fs[i].data, ps[i].dir, ps[i].first)
    {
      assert i < |files| ==> fs[i] == files[i] && ps[i] == places[i];
    }
    assert bitmap in v.chains;
  }

  lemma FileThereSound(w: Volume, up: UpCase, root: nat, size: nat, f: File, p: Place)
    requires FileThere(w, up, root, size, f.parts, f.data, p.dir, p.first)
    ensures Sound(w) && root in w.dirs
  {}

  lemma AllBeside(a: Volume, v: Volume, w: Volume, bitmap: nat, up: UpCase, root: nat, size: nat, files: seq<File>,
                  places: seq<Place>)
    requires SoFar(a, v, bitmap, up, root, size, files, places) && Sound(w)
    requires w.chains == v.chains && w.dirs == v.dirs && bitmap !in v.dirs
    requires forall g | g in v.chains && g != bitmap :: Held(w, g) == Held(v, g)
    ensures AllThere(w, up, root, size, files, places)
    ensures forall d | d in a.dirs :: d in w.dirs && Names(a, d) <= Names(w, d)
    ensures forall h | h in a.chains && h !in a.dirs && h != bitmap :: h in w.chains && Held(w, h) == Held(a, h)
  {
    hide Held, DirHolds, FileThere;
    forall i | 0 <= i < |files|
      ensures FileThere(w, up, root, size, files[i].parts, files[i].data, places[i].dir, places[i].first)
    {
      FilesBeside(v, w, bitmap, up, root, size, files[i], places[i]);
    }
    forall d | d in v.dirs ensures Names(w, d) == Names(v, d) { SameNames(v, w, d); }
  }

  /** After any number of successful adds and a close, every path still names its file, with its length
      and its data; what was on the card before is there; and the bitmap on the card is the one in
      memory. None is the tool giving up. */
  method AddAll(card: Card, files: seq<File>) returns (r: Option<seq<Place>>)
    requires card.Valid() && |card.bits| <= |card.chains[card.bitmap]| * card.cluster
    requires forall i :: 0 <= i < |files| ==> |files[i].data| < 0x1_0000_0000_0000_0000
    modifies card
    ensures r.Some? ==> card.Valid() && AllThere(card.Vol(), card.up, card.root, card.cluster, files, r.value)
    ensures r.Some? ==> forall d | d in old(card.dirs) ::
              d in card.dirs && old(Names(card.Vol(), d)) <= Names(card.Vol(), d)
    ensures r.Some? ==> forall h | h in old(card.chains) && h !in old(card.dirs) && h != card.bitmap ::
              h in card.chains && Held(card.Vol(), h) == old(Held(card.Vol(), h))
    ensures r.Some? ==> |card.bits| <= |Held(card.Vol(), card.bitmap)|
    ensures r.Some? ==> forall i | 0 <= i < |card.bits| :: Held(card.Vol(), card.bitmap)[i] == card.bits[i] as int
  {
    hide ChainsOk, Sound, Grown, SoFar, FileAdded, AllThere;
    ghost var a := card.Vol();
    var places := [];
    var i := 0;
    NothingPut(a, card.bitmap, card.up, card.root, card.cluster);
    assert files[..0] == [];
    while i < |files|
      invariant i <= |files| && card.Valid() && |card.bits| == old(|card.bits|)
      invariant SoFar(a, card.Vol(), card.bitmap, card.up, card.root, card.cluster, files[..i], places)
    {
      ghost var v := card.Vol();
      var p := card.Add(files[i].data, files[i].parts);
      if p.None? {
        return None;
      }
      var place := Place(p.value.0, p.value.1);
      OneFileMore(a, v, card.Vol(), card.bitmap, card.up, card.root, card.cluster, files[..i], places, files[i], place);
      assert files[..i + 1] == files[..i] + [files[i]];
      places := places + [place];
      i := i + 1;
    }
    assert files[..i] == files;
    ghost var v := card.Vol();
    SameBitmap(a, v, card.bitmap, card.up, card.root, card.cluster, files, places);
    card.Close();
    AllBeside(a, v, card.Vol(), card.bitmap, card.up, card.root, card.cluster, files, places);
    r := Some(places);
  }

  lemma NothingPut(a: Volume, bitmap: nat, up: UpCase, root: nat, size: nat)
    requires Sound(a) && root in a.dirs && bitmap in a.chains
    ensures SoFar(a, a, bitmap, up, root, size, [], [])
  {
    GrownReflexive(a);
  }

  lemma SameBitmap(a: Volume, v: Volume, bitmap: nat, up: UpCase, root: nat, size: nat, files: seq<File>,
                   places: seq<Place>)
    requires SoFar(a, v, bitmap, up, root, size, files, places)
    ensures bitmap in v.chains && v.chains[bitmap] == a.chains[bitmap]
  {}
}
