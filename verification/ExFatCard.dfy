/** The card as the tool changes it: the FAT, the allocation bitmap and the cluster heap. */
module ExFatCard {
  import opened Bytes

  const END_OF_CHAIN: u32 := 0xFFFF_FFFF

  // ---- Chains in the FAT ----

  /** `s` is a whole chain: each cluster's FAT entry names the next, the last one's is the end. */
  ghost predicate IsChain(fat: seq<u32>, s: seq<nat>) {
    && s != []
    && (forall i | 0 <= i < |s| :: 2 <= s[i] < |fat|)
    && (forall i | 0 <= i < |s| - 1 :: fat[s[i]] == s[i + 1])
    && fat[s[|s| - 1]] == END_OF_CHAIN
  }

  lemma {:induction false} OneChainFromAHead(fat: seq<u32>, s: seq<nat>, t: seq<nat>)
    requires |fat| <= END_OF_CHAIN && IsChain(fat, s) && IsChain(fat, t) && s[0] == t[0]
    ensures s == t
  {
    assert |s| > 1 ==> fat[s[0]] == s[0 + 1] < |fat|;
    assert |t| > 1 ==> fat[t[0]] == t[0 + 1] < |fat|;
    if |s| > 1 && |t| > 1 {
      OneChainFromAHead(fat, s[1..], t[1..]);
    }
  }

  /** No chain meets itself, so walking one ends. */
  lemma ChainsAreAcyclic(fat: seq<u32>, s: seq<nat>, i: nat, j: nat)
    requires |fat| <= END_OF_CHAIN && IsChain(fat, s) && i < j < |s|
    ensures s[i] != s[j]
  {
    if s[i] == s[j] {
      OneChainFromAHead(fat, s[i..], s[j..]);
    }
  }

  // ---- The bitmap ----

  predicate InBitmap(bits: seq<bv8>, c: nat) {
    2 <= c && (c - 2) / 8 < |bits|
  }

  predicate Used(bits: seq<bv8>, c: nat)
    requires InBitmap(bits, c)
  {
    (bits[(c - 2) / 8] >> ((c - 2) % 8)) & 1 == 1
  }

  function Mark(bits: seq<bv8>, c: nat): (r: seq<bv8>)
    requires InBitmap(bits, c)
    ensures |r| == |bits|
  {
    bits[(c - 2) / 8 := bits[(c - 2) / 8] | (1 << ((c - 2) % 8))]
  }

  lemma OneBit(b: bv8, k: nat, j: nat)
    requires k < 8 && j < 8
    ensures ((b | (1 << k)) >> j) & 1 == (if j == k then 1 else (b >> j) & 1)
  {
    if k == 0 {} else if k == 1 {} else if k == 2 {} else if k == 3 {}
    else if k == 4 {} else if k == 5 {} else if k == 6 {} else {}
  }

  lemma MarkUses(bits: seq<bv8>, c: nat, d: nat)
    requires InBitmap(bits, c) && InBitmap(bits, d)
    ensures Used(Mark(bits, c), d) <==> d == c || Used(bits, d)
  {
    if (c - 2) / 8 == (d - 2) / 8 {
      assert c == d <==> (c - 2) % 8 == (d - 2) % 8;
      OneBit(bits[(c - 2) / 8], (c - 2) % 8, (d - 2) % 8);
    }
  }

  /** The free clusters below `hi`, in order. */
  function Free(bits: seq<bv8>, hi: nat): (r: seq<nat>)
    requires hi > 2 ==> InBitmap(bits, hi - 1)
    ensures forall i | 0 <= i < |r| :: 2 <= r[i] < hi && InBitmap(bits, r[i]) && !Used(bits, r[i])
    ensures forall i, j | 0 <= i < j < |r| :: r[i] < r[j]
  {
    if hi <= 2 then [] else Free(bits, hi - 1) + (if Used(bits, hi - 1) then [] else [hi - 1])
  }

  lemma {:induction false} FreeGrows(bits: seq<bv8>, lo: nat, hi: nat)
    requires lo <= hi && (hi > 2 ==> InBitmap(bits, hi - 1))
    ensures Free(bits, lo) <= Free(bits, hi)
  {
    if lo < hi { FreeGrows(bits, lo, hi - 1); }
  }

  // ---- What a card's chains keep ----

  ghost predicate Apart(s: seq<nat>, t: seq<nat>) {
    forall c | c in s :: c !in t
  }

  ghost predicate Marked(bits: seq<bv8>, s: seq<nat>) {
    forall i | 0 <= i < |s| :: InBitmap(bits, s[i]) && Used(bits, s[i])
  }

  /** Every chain is whole, is marked in the bitmap, and shares no cluster with another. */
  ghost predicate ChainsOk(fat: seq<u32>, bits: seq<bv8>, chains: map<nat, seq<nat>>) {
    && (forall h | h in chains :: IsChain(fat, chains[h]) && chains[h][0] == h && Marked(bits, chains[h]))
    && (forall h, g | h in chains && g in chains && h != g :: Apart(chains[h], chains[g]))
  }

  /** The bitmap after `got` was marked in `was`. */
  ghost predicate MarksExactly(was: seq<bv8>, now: seq<bv8>, got: seq<nat>) {
    |now| == |was| && forall c: nat | InBitmap(was, c) :: Used(now, c) <==> c in got || Used(was, c)
  }

  ghost predicate Taken(was: seq<bv8>, got: seq<nat>) {
    && got != []
    && (forall i | 0 <= i < |got| :: InBitmap(was, got[i]) && !Used(was, got[i]))
    && (forall i, j | 0 <= i < j < |got| :: got[i] < got[j])
  }

  /** A chain made of free clusters joins the others and leaves each of them as it was. */
  lemma ChainsGrow(fat: seq<u32>, bits: seq<bv8>, chains: map<nat, seq<nat>>, fat2: seq<u32>, bits2: seq<bv8>,
                   got: seq<nat>)
    requires ChainsOk(fat, bits, chains) && Taken(bits, got) && MarksExactly(bits, bits2, got)
    requires |fat2| == |fat| && forall c | 0 <= c < |fat| && c !in got :: fat2[c] == fat[c]
    requires IsChain(fat2, got)
    ensures got[0] !in chains && ChainsOk(fat2, bits2, chains[got[0] := got])
  {
    forall h | h in chains ensures Apart(chains[h], got) && Apart(got, chains[h]) && h in chains[h] {
      forall c | c in chains[h] ensures c !in got {
        var i :| 0 <= i < |chains[h]| && chains[h][i] == c;
      }
    }
    forall h | h in chains ensures IsChain(fat2, chains[h]) && Marked(bits2, chains[h]) {
      forall i | 0 <= i < |chains[h]| ensures fat2[chains[h][i]] == fat[chains[h][i]] && Used(bits2, chains[h][i]) {
        assert chains[h][i] in chains[h];
      }
    }
  }

  // ---- What the clusters hold ----

  ghost predicate InHeap(heap: seq<seq<u8>>, s: seq<nat>) {
    forall i | 0 <= i < |s| :: 2 <= s[i] < |heap| + 2
  }

  ghost predicate Even(heap: seq<seq<u8>>, size: nat) {
    forall i | 0 <= i < |heap| :: |heap[i]| == size
  }

  /** The clusters of `s`, one after the other. */
  function Data(heap: seq<seq<u8>>, s: seq<nat>): seq<u8>
    requires forall i | 0 <= i < |s| :: 2 <= s[i] < |heap| + 2
  {
    if s == [] then [] else heap[s[0] - 2] + Data(heap, s[1..])
  }

  lemma {:induction false} DataFollows(heap: seq<seq<u8>>, heap2: seq<seq<u8>>, s: seq<nat>)
    requires InHeap(heap, s) && |heap2| == |heap|
    requires forall i | 0 <= i < |s| :: heap2[s[i] - 2] == heap[s[i] - 2]
    ensures Data(heap2, s) == Data(heap, s)
  {
    if s != [] { DataFollows(heap, heap2, s[1..]); }
  }

  /** `s` split at cluster `k`, where the data so far is k clusters long. */
  lemma {:induction false} DataSplits(heap: seq<seq<u8>>, size: nat, s: seq<nat>, k: nat)
    requires InHeap(heap, s) && Even(heap, size) && k <= |s|
    ensures Data(heap, s) == Data(heap, s[..k]) + Data(heap, s[k..])
    ensures |Data(heap, s[..k])| == k * size
  {
    if k == 0 {
      assert s[..0] == [] && s[0..] == s;
    } else {
      DataSplits(heap, size, s[1..], k - 1);
      assert s[..k][1..] == s[1..][..k - 1] && s[k..] == s[1..][k - 1..];
      assert k * size == size + (k - 1) * size;
    }
  }

  /** The byte at offset `j` of the chain's cluster `k`. */
  lemma DataAt(heap: seq<seq<u8>>, size: nat, s: seq<nat>, k: nat, j: nat)
    requires InHeap(heap, s) && Even(heap, size) && k < |s| && j < size
    ensures k * size + j < |Data(heap, s)| && Data(heap, s)[k * size + j] == heap[s[k] - 2][j]
  {
    DataSplits(heap, size, s, k);
    assert s[k..][0] == s[k];
  }

  lemma DataLength(heap: seq<seq<u8>>, size: nat, s: seq<nat>)
    requires InHeap(heap, s) && Even(heap, size)
    ensures |Data(heap, s)| == |s| * size
  {
    DataSplits(heap, size, s, |s|);
    assert s[..|s|] == s && s[|s|..] == [];
  }

  /** A cluster replaced inside a chain replaces that stretch of its data. */
  lemma DataReplaced(heap: seq<seq<u8>>, size: nat, s: seq<nat>, k: nat, piece: seq<u8>)
    requires InHeap(heap, s) && Even(heap, size) && k < |s| && |piece| == size
    requires forall i | 0 <= i < |s| && i != k :: s[i] != s[k]
    ensures var heap2 := heap[s[k] - 2 := piece];
            && Even(heap2, size) && InHeap(heap2, s)
            && Data(heap2, s) == Data(heap, s[..k]) + piece + Data(heap, s[k + 1..])
            && Data(heap, s) == Data(heap, s[..k]) + heap[s[k] - 2] + Data(heap, s[k + 1..])
  {
    var heap2 := heap[s[k] - 2 := piece];
    DataSplits(heap, size, s, k);
    DataSplits(heap2, size, s, k);
    assert s[k..][0] == s[k] && s[k..][1..] == s[k + 1..];
    var rest := s[k + 1..];
    forall i | 0 <= i < |rest| ensures heap2[rest[i] - 2] == heap[rest[i] - 2] {
      assert rest[i] == s[k + 1 + i];
    }
    DataFollows(heap, heap2, s[..k]);
    DataFollows(heap, heap2, rest);
  }
}
