/** Putting files on a card: allocation, directories made on the way, and the entry sets. */
module ExFat {
  import opened Bytes
  import opened Wrappers
  import opened ExFatEntries
  import opened ExFatCard

  // ---- What is on a card ----

  /** The heap with its chains, by first cluster, and those that are directories. */
  datatype Volume = Volume(heap: seq<seq<u8>>, chains: map<nat, seq<nat>>, dirs: set<nat>)

  ghost predicate Mapped(v: Volume) {
    v.dirs <= v.chains.Keys && forall h | h in v.chains :: InHeap(v.heap, v.chains[h])
  }

  /** What the chain from `h` holds. */
  ghost function Held(v: Volume, h: nat): seq<u8>
    requires Mapped(v) && h in v.chains
  {
    Data(v.heap, v.chains[h])
  }

  /** A directory whose sets are whole, zero past its end marker, and whose directories exist. */
  ghost predicate DirHolds(v: Volume, d: nat)
    requires Mapped(v) && d in v.dirs
  {
    var data := Held(v, d);
    && DirOk(data, 0)
    && ZeroFrom(data, Listing(data, 0).1)
    && forall i | 0 <= i < |Listing(data, 0).0| ::
         Listing(data, 0).0[i].directory ==> Listing(data, 0).0[i].first in v.dirs
  }

  ghost predicate Sound(v: Volume) {
    Mapped(v) && forall d | d in v.dirs :: DirHolds(v, d)
  }

  /** A directory's sets, as reading it gives them. */
  ghost function Names(v: Volume, d: nat): seq<Entry>
    requires Mapped(v) && d in v.dirs && DirHolds(v, d)
  {
    Listing(Held(v, d), 0).0
  }

  /** Everything on the card before is there after: the files' bytes unchanged, the directories
      with what they had, and only new sets after it. */
  ghost predicate Grown(a: Volume, b: Volume)
    requires Sound(a) && Sound(b)
  {
    && (forall h | h in a.chains :: h in b.chains && b.chains[h] == a.chains[h] && (h in b.dirs <==> h in a.dirs))
    && (forall h | h in a.chains && h !in a.dirs :: Held(b, h) == Held(a, h))
    && (forall d | d in a.dirs :: Names(a, d) <= Names(b, d))
  }

  lemma GrownTransitive(a: Volume, b: Volume, c: Volume)
    requires Sound(a) && Sound(b) && Sound(c) && Grown(a, b) && Grown(b, c)
    ensures Grown(a, c)
  {
    hide DirHolds, Held;
    forall d | d in a.dirs ensures Names(a, d) <= Names(c, d) {
      assert d in b.dirs && Names(a, d) <= Names(b, d) <= Names(c, d);
    }
  }

  // ---- Looking a path up ----

  /** The first directory among `es` whose name is `want`, case put aside. */
  function FindDir(up: UpCase, es: seq<Entry>, want: seq<u16>): Option<nat> {
    if es == [] then None
    else if es[0].directory && UpName(up, es[0].units) == want then Some(es[0].first)
    else FindDir(up, es[1..], want)
  }

  lemma {:induction false} FindDirIn(up: UpCase, a: seq<Entry>, b: seq<Entry>, want: seq<u16>)
    ensures FindDir(up, a + b, want) ==
            if FindDir(up, a, want).Some? then FindDir(up, a, want) else FindDir(up, b, want)
  {
    if a == [] {
      assert a + b == b;
    } else {
      assert (a + b)[1..] == a[1..] + b;
      FindDirIn(up, a[1..], b, want);
    }
  }

  lemma {:induction false} FindDirFinds(up: UpCase, es: seq<Entry>, want: seq<u16>)
    ensures FindDir(up, es, want).Some? ==>
            exists i | 0 <= i < |es| :: es[i].directory && es[i].first == FindDir(up, es, want).value
  {
    if es != [] && !(es[0].directory && UpName(up, es[0].units) == want) {
      FindDirFinds(up, es[1..], want);
    }
  }

  /** The directory a path names from the root, if every part of it exists. */
  ghost function Walk(v: Volume, up: UpCase, root: nat, parts: seq<seq<u16>>): (r: Option<nat>)
    requires Sound(v) && root in v.dirs
    ensures r.Some? ==> r.value in v.dirs
  {
    if parts == [] then Some(root)
    else
      var n := |parts| - 1;
      match Walk(v, up, root, parts[..n])
      case None => None
      case Some(d) =>
        FindDirFinds(up, Names(v, d), UpName(up, parts[n]));
        FindDir(up, Names(v, d), UpName(up, parts[n]))
  }

  /** What a path named it still names once the card has grown. */
  lemma {:induction false} WalkGrows(a: Volume, b: Volume, up: UpCase, root: nat, parts: seq<seq<u16>>)
    requires Sound(a) && Sound(b) && Grown(a, b) && root in a.dirs && root in b.dirs
    requires Walk(a, up, root, parts).Some?
    ensures Walk(b, up, root, parts) == Walk(a, up, root, parts)
    decreases |parts|
  {
    hide DirHolds;
    if parts != [] {
      var n := |parts| - 1;
      WalkGrows(a, b, up, root, parts[..n]);
      var d := Walk(a, up, root, parts[..n]).value;
      var was, now := Names(a, d), Names(b, d);
      assert now == was + now[|was|..];
      FindDirIn(up, was, now[|was|..], UpName(up, parts[n]));
    }
  }

  // ---- What one write does to it ----

  /** Chains share no cluster with each other and none holds a cluster twice. */
  ghost predicate Separate(v: Volume) {
    && (forall h, g | h in v.chains && g in v.chains && h != g :: Apart(v.chains[h], v.chains[g]))
    && (forall h | h in v.chains :: NoRepeat(v.chains[h]))
  }

  ghost predicate NoRepeat(s: seq<nat>) {
    forall i, j | 0 <= i < j < |s| :: s[i] != s[j]
  }

  /** The heap changed at most in clusters of `s`. */
  ghost predicate ChangedIn(heap: seq<seq<u8>>, heap2: seq<seq<u8>>, s: seq<nat>) {
    |heap2| == |heap| && forall i | 0 <= i < |heap| && i + 2 !in s :: heap2[i] == heap[i]
  }

  lemma OthersHeld(v: Volume, heap2: seq<seq<u8>>, h: nat, g: nat)
    requires Mapped(v) && Separate(v) && h in v.chains && g in v.chains && g != h
    requires ChangedIn(v.heap, heap2, v.chains[h])
    ensures Data(heap2, v.chains[g]) == Held(v, g)
  {
    var s := v.chains[g];
    forall i | 0 <= i < |s| ensures heap2[s[i] - 2] == v.heap[s[i] - 2] {
      assert s[i] in s && Apart(s, v.chains[h]);
    }
    DataFollows(v.heap, heap2, s);
  }

  /** A write inside a file's chain leaves every other chain, and every directory, as it was. */
  lemma FileWriteKeeps(v: Volume, heap2: seq<seq<u8>>, h: nat)
    requires Sound(v) && Separate(v) && h in v.chains && h !in v.dirs && ChangedIn(v.heap, heap2, v.chains[h])
    ensures var w := v.(heap := heap2);
            Sound(w) && (forall g | g in v.chains && g != h :: Held(w, g) == Held(v, g))
  {
    var w := v.(heap := heap2);
    assert Mapped(w);
    forall g | g in v.chains && g != h ensures Held(w, g) == Held(v, g) { OthersHeld(v, heap2, h, g); }
    forall d | d in w.dirs ensures DirHolds(w, d) { assert DirHolds(v, d); }
  }

  /** `old` with `s` written at `off`. */
  function Patched(old_: seq<u8>, off: nat, s: seq<u8>): (r: seq<u8>)
    requires off + |s| <= |old_|
    ensures |r| == |old_|
  {
    old_[..off] + s + old_[off + |s|..]
  }

  /** A set patched into a chain's cluster `k` at `off` stands in the chain's data at k * size + off,
      and the rest of the data is as it was. */
  lemma PatchStands(heap: seq<seq<u8>>, size: nat, chain: seq<nat>, k: nat, off: nat, s: seq<u8>)
    requires InHeap(heap, chain) && Even(heap, size) && NoRepeat(chain) && k < |chain| && off + |s| <= size
    ensures var heap2 := heap[chain[k] - 2 := Patched(heap[chain[k] - 2], off, s)];
            var (data, now, end) := (Data(heap, chain), Data(heap2, chain), k * size + off);
            && Even(heap2, size) && |now| == |data| && end + |s| <= |data| && Stands(now, end, s)
            && (forall i | 0 <= i < end :: now[i] == data[i])
            && (forall i | end + |s| <= i < |data| :: now[i] == data[i])
  {
    hide Data, Stands, Patched;
    var c := chain[k];
    DataReplaced(heap, size, chain, k, Patched(heap[c - 2], off, s));
    DataSplits(heap, size, chain, k);
    ThreeParts(Data(heap, chain[..k]), heap[c - 2], Data(heap, chain[k + 1..]), off, s);
  }

  lemma ThreeParts(a: seq<u8>, b: seq<u8>, c: seq<u8>, off: nat, s: seq<u8>)
    requires off + |s| <= |b|
    ensures var (data, now, end) := (a + b + c, a + Patched(b, off, s) + c, |a| + off);
            && |now| == |data| && Stands(now, end, s)
            && (forall i | 0 <= i < end :: now[i] == data[i])
            && (forall i | end + |s| <= i < |data| :: now[i] == data[i])
  {}

  /** The directory `d` lists `e` last, and nothing else on the card has changed. */
  ghost predicate SetAdded(v: Volume, w: Volume, d: nat, e: Entry) {
    && Sound(v) && Sound(w) && Grown(v, w) && w.chains == v.chains && w.dirs == v.dirs
    && d in v.dirs && Names(w, d) == Names(v, d) + [e]
    && (forall g | g in v.chains && g != d :: Held(w, g) == Held(v, g))
  }

  /** A directory's data replaced by data that lists one set more. */
  lemma DirReplaced(v: Volume, heap2: seq<seq<u8>>, d: nat, e: Entry, s: seq<u8>)
    requires Sound(v) && Separate(v) && d in v.dirs && ChangedIn(v.heap, heap2, v.chains[d])
    requires DirHolds(v, d) && Appended(Held(v, d), 0, e, s, Data(heap2, v.chains[d]))
    requires e.directory ==> e.first in v.dirs
    ensures SetAdded(v, v.(heap := heap2), d, e)
  {
    var w := v.(heap := heap2);
    assert Mapped(w);
    OneListedMore(v, w, d, e, s);
    hide Listing, DirOk, ZeroFrom, DirHolds, Held;
    forall g | g in v.chains && g != d ensures Held(w, g) == Held(v, g) {
      OthersHeld(v, heap2, d, g);
      assert Held(w, g) == Data(heap2, v.chains[g]) by { HeldIs(w, g); }
    }
    forall g | g in w.dirs ensures DirHolds(w, g) && Names(v, g) <= Names(w, g) {
      assert DirHolds(v, g);
      if g != d { SameListed(v, w, g); }
    }
  }

  lemma HeldIs(v: Volume, h: nat)
    requires Mapped(v) && h in v.chains
    ensures Held(v, h) == Data(v.heap, v.chains[h])
  {}

  lemma SameListed(v: Volume, w: Volume, g: nat)
    requires Mapped(v) && Mapped(w) && g in v.dirs && DirHolds(v, g) && w.dirs == v.dirs && Held(w, g) == Held(v, g)
    ensures DirHolds(w, g) && Names(w, g) == Names(v, g)
  {}

  lemma OneListedMore(v: Volume, w: Volume, d: nat, e: Entry, s: seq<u8>)
    requires Mapped(v) && Mapped(w) && d in v.dirs && DirHolds(v, d) && w.dirs == v.dirs && w.chains == v.chains
    requires Appended(Held(v, d), 0, e, s, Held(w, d)) && (e.directory ==> e.first in v.dirs)
    ensures DirHolds(w, d) && Names(w, d) == Names(v, d) + [e]
  {
    hide Listing, DirOk, ZeroFrom;
  }

  /** A directory with room at its end marker, in its cluster `k` at `off`. */
  ghost predicate RoomAt(v: Volume, size: nat, d: nat, k: nat, off: nat, n: nat) {
    && Sound(v) && d in v.dirs && Even(v.heap, size)
    && k < |v.chains[d]| && off + n <= size && k * size + off == Listing(Held(v, d), 0).1
  }

  /** The heap with `s` written into the cluster `c` at `off`. */
  function PatchHeap(heap: seq<seq<u8>>, c: nat, off: nat, s: seq<u8>): (r: seq<seq<u8>>)
    requires 2 <= c < |heap| + 2 && off + |s| <= |heap[c - 2]|
    ensures ChangedIn(heap, r, [c]) && |r[c - 2]| == |heap[c - 2]|
  {
    heap[c - 2 := Patched(heap[c - 2], off, s)]
  }

  /** A set written at a directory's end marker is listed last, and nothing else changes. */
  lemma SetAdds(v: Volume, size: nat, up: UpCase, d: nat, e: Entry, k: nat, off: nat)
    requires |e.units| <= 255 && RoomAt(v, size, d, k, off, |EntrySet(up, e)|) && Separate(v)
    requires e.directory ==> e.first in v.dirs
    ensures 2 <= v.chains[d][k] < |v.heap| + 2 && |v.heap[v.chains[d][k] - 2]| == size
    ensures SetAdded(v, v.(heap := PatchHeap(v.heap, v.chains[d][k], off, EntrySet(up, e))), d, e)
  {
    var s, chain := EntrySet(up, e), v.chains[d];
    assert DirHolds(v, d) && InHeap(v.heap, chain);
    hide EntrySet, Listing, DirOk, Grown, SetAdded, ZeroFrom;
    PatchStands(v.heap, size, chain, k, off, s);
    ListingAppends(up, e, Held(v, d), 0, Data(PatchHeap(v.heap, chain[k], off, s), chain));
    DirReplaced(v, PatchHeap(v.heap, chain[k], off, s), d, e, s);
  }
}
