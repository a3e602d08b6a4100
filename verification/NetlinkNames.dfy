/** A link's altnames: read out of its description, and taken away 64 to a request. */
module NetlinkNames {
  import opened Bytes
  import opened Netlink

  const IFLA_IFALIAS := 20
  const IFLA_PROP_LIST := 52
  const IFLA_ALT_IFNAME := 53
  const RTM_DELLINKPROP := 109
  const CHUNK := 64

  type Pairs = seq<(u16, seq<u8>)>

  function UntilNul(b: seq<u8>): (r: seq<u8>)
    ensures r <= b && 0 !in r && (r == b || b[|r|] == 0)
  {
    if b == [] || b[0] == 0 then [] else [b[0]] + UntilNul(b[1..])
  }

  lemma {:induction false} UntilNulStops(name: seq<u8>, rest: seq<u8>)
    requires 0 !in name
    ensures UntilNul(name + [0] + rest) == name
  {
    if name != [] {
      assert (name + [0] + rest)[1..] == name[1..] + [0] + rest;
      UntilNulStops(name[1..], rest);
    }
  }

  function AltNames(got: Pairs): (r: seq<seq<u8>>)
    ensures forall i :: 0 <= i < |r| ==> 0 !in r[i]
  {
    if got == [] then []
    else (if got[0].0 == IFLA_ALT_IFNAME then [UntilNul(got[0].1)] else []) + AltNames(got[1..])
  }

  function LinkNames(got: Pairs): (r: seq<seq<u8>>)
    ensures forall i :: 0 <= i < |r| ==> 0 !in r[i]
  {
    if got == [] then []
    else (if got[0].0 == IFLA_PROP_LIST then AltNames(Attrs(got[0].1, 0)) else []) + LinkNames(got[1..])
  }

  /** The last alias attribute decides. */
  function Alias(got: Pairs, before: bool): bool {
    if got == [] then before
    else Alias(got[1..], if got[0].0 == IFLA_IFALIAS then |got[0].1| > 0 && got[0].1[0] != 0 else before)
  }

  method CollectNames(data: seq<u8>) returns (alt: seq<seq<u8>>)
    ensures alt == AltNames(Attrs(data, 0))
  {
    hide Attrs, UntilNul;
    var got := ReadAttrs(data, 0);
    alt := [];
    var i := 0;
    assert got[0..] == got;
    while i < |got|
      invariant 0 <= i <= |got| && alt + AltNames(got[i..]) == AltNames(got)
    {
      var rest := got[i..];
      assert rest[1..] == got[i + 1..];
      if got[i].0 == IFLA_ALT_IFNAME {
        var name := UntilNul(got[i].1);
        assert alt + ([name] + AltNames(rest[1..])) == alt + [name] + AltNames(rest[1..]);
        alt := alt + [name];
      } else {
        assert [] + AltNames(rest[1..]) == AltNames(rest[1..]);
      }
      i := i + 1;
    }
    assert got[i..] == [];
  }

  method NamesLeft(reply: seq<u8>) returns (alt: seq<seq<u8>>, alias: bool)
    ensures alt == LinkNames(Attrs(reply, 16)) && alias == Alias(Attrs(reply, 16), false)
  {
    hide Attrs, AltNames;
    var got := ReadAttrs(reply, 16);
    alt, alias := [], false;
    var i := 0;
    assert got[0..] == got;
    while i < |got|
      invariant 0 <= i <= |got| && alt + LinkNames(got[i..]) == LinkNames(got)
      invariant Alias(got[i..], alias) == Alias(got, false)
    {
      var rest := got[i..];
      assert rest[1..] == got[i + 1..];
      if got[i].0 == IFLA_PROP_LIST {
        var names := CollectNames(got[i].1);
        assert alt + (names + LinkNames(rest[1..])) == alt + names + LinkNames(rest[1..]);
        alt := alt + names;
      } else {
        assert [] + LinkNames(rest[1..]) == LinkNames(rest[1..]);
        if got[i].0 == IFLA_IFALIAS {
          alias := |got[i].1| > 0 && got[i].1[0] != 0;
        }
      }
      i := i + 1;
    }
    assert got[i..] == [];
  }

  // ---- Taking them away ----

  function Leaves(names: seq<seq<u8>>): (r: seq<Attr>)
    ensures |r| == |names|
  {
    if names == [] then [] else [Leaf(IFLA_ALT_IFNAME, names[0] + [0])] + Leaves(names[1..])
  }

  function PropList(names: seq<seq<u8>>): Attr {
    Nest(IFLA_PROP_LIST, [], Leaves(names))
  }

  /** struct ifinfomsg, with no family, flags or change. */
  function IfInfo(index: u32): (r: seq<u8>)
    ensures |r| == 16
  {
    [0, 0] + Le16(0) + Le32(index) + Le32(0) + Le32(0)
  }

  function Request(index: u32, names: seq<seq<u8>>): seq<u8> {
    Message(RTM_DELLINKPROP, 0, 1, IfInfo(index), [PropList(names)])
  }

  function First(names: seq<seq<u8>>): nat {
    if |names| < CHUNK then |names| else CHUNK
  }

  function Requests(index: u32, names: seq<seq<u8>>): seq<seq<u8>>
    decreases |names|
  {
    if names == [] then []
    else [Request(index, names[..First(names)])] + Requests(index, names[First(names)..])
  }

  /** What the kernel reads out of requests, in order: header and ifinfomsg are 32 bytes. */
  ghost function Asked(requests: seq<seq<u8>>): seq<seq<u8>> {
    if requests == [] then [] else LinkNames(Attrs(requests[0], 32)) + Asked(requests[1..])
  }

  method DelAltnames(index: u32, names: seq<seq<u8>>) returns (requests: seq<seq<u8>>)
    ensures requests == Requests(index, names)
  {
    hide Request, IfInfo, PropList;
    requests := [];
    var i := 0;
    assert names[0..] == names;
    while i < |names|
      invariant 0 <= i <= |names|
      invariant requests + Requests(index, names[i..]) == Requests(index, names)
    {
      var left := names[i..];
      var some := left[..First(left)];
      var r := BuildRequest(index, some);
      ghost var rest := Requests(index, left[First(left)..]);
      assert left[First(left)..] == names[i + |some|..];
      assert requests + ([r] + rest) == requests + [r] + rest;
      requests := requests + [r];
      i := i + |some|;
    }
    assert names[i..] == [];
  }

  method BuildRequest(index: u32, names: seq<seq<u8>>) returns (r: seq<u8>)
    ensures r == Request(index, names)
  {
    r := BuildMessage(RTM_DELLINKPROP, 0, 1, IfInfo(index), [PropList(names)]);
  }

  lemma {:induction false} LeavesAreShort(names: seq<seq<u8>>)
    requires forall i :: 0 <= i < |names| ==> |names[i]| <= 127
    ensures |EncodeAll(Leaves(names))| <= 132 * |names| && AllFit(Leaves(names))
  {
    hide Align4, U16, Le16;
    if names != [] {
      var l, rest := Leaf(IFLA_ALT_IFNAME, names[0] + [0]), Leaves(names[1..]);
      LeavesAreShort(names[1..]);
      assert Leaves(names)[1..] == rest;
      AlignBelow(|names[0]| + 1);
      assert |Encode(l)| == 4 + Align4(|names[0]| + 1);
    }
  }

  lemma AlignBelow(n: nat)
    ensures n <= 128 ==> Align4(n) <= 128
  {}

  /** The first name's leaf, and the others'. */
  lemma FirstLeaf(names: seq<seq<u8>>)
    requires names != [] && AllFit(Leaves(names))
    ensures var l, rest := Leaf(IFLA_ALT_IFNAME, names[0] + [0]), Leaves(names[1..]);
            && AllFit(rest) && 4 + |Payload(l)| <= 0xFFFF
            && EncodeAll(Leaves(names)) == Encode(l) + EncodeAll(rest)
  {
    hide Encode;
    assert Leaves(names)[1..] == Leaves(names[1..]);
  }

  lemma FirstName(name: seq<u8>, rest: Pairs)
    requires 0 !in name
    ensures AltNames([(TypeOf(IFLA_ALT_IFNAME), name + [0])] + rest) == [name] + AltNames(rest)
  {
    hide UntilNul;
    UntilNulStops(name, []);
    assert name + [0] + [] == name + [0];
    assert ([(TypeOf(IFLA_ALT_IFNAME), name + [0])] + rest)[1..] == rest;
  }

  lemma NoNames()
    ensures AltNames(Attrs(EncodeAll(Leaves([])), 0)) == []
  {
    AttrsStep([], 0);
  }

  lemma {:induction false} LeavesRead(names: seq<seq<u8>>)
    requires AllFit(Leaves(names)) && forall i :: 0 <= i < |names| ==> 0 !in names[i]
    ensures AltNames(Attrs(EncodeAll(Leaves(names)), 0)) == names
  {
    hide Attrs, Encode, EncodeAll, AltNames, AllFit, Leaves;
    if names == [] {
      NoNames();
    } else {
      FirstLeaf(names);
      FirstAttr(Leaf(IFLA_ALT_IFNAME, names[0] + [0]), EncodeAll(Leaves(names[1..])));
      FirstName(names[0], Attrs(EncodeAll(Leaves(names[1..])), 0));
      LeavesRead(names[1..]);
      assert names == [names[0]] + names[1..];
    }
  }

  predicate AreAltnames(names: seq<seq<u8>>) {
    forall i :: 0 <= i < |names| ==> |names[i]| <= 127 && 0 !in names[i]
  }

  ghost predicate WithinLengths(r: seq<u8>) {
    4 <= |r| <= 36 + 132 * CHUNK && U32(r, 0) == |r|
  }

  lemma RequestShape(index: u32, names: seq<seq<u8>>)
    requires |Encode(PropList(names))| <= 4 + 132 * CHUNK
    ensures var r := Request(index, names);
            WithinLengths(r) && exists h :: |h| == 32 && r == h + EncodeAll([PropList(names)])
  {
    hide Header, IfInfo, U32, PropList, Align4, Encode, Padded;
    var p := PropList(names);
    assert EncodeAll([p]) == Encode(p) + [] == Encode(p);
    assert Padded(IfInfo(index)) == IfInfo(index) by { PaddedAlready(IfInfo(index)); }
    var rest := IfInfo(index) + Encode(p);
    var h := Header(RTM_DELLINKPROP, 0, 1, 16 + |rest|);
    HeaderLength(RTM_DELLINKPROP, 0, 1, 16 + |rest|, rest);
    assert Request(index, names) == h + rest == (h + IfInfo(index)) + EncodeAll([p]);
  }

  lemma PaddedAlready(b: seq<u8>)
    ensures Aligned(b) ==> Padded(b) == b
  {}

  lemma PropListPayload(names: seq<seq<u8>>)
    ensures Payload(PropList(names)) == EncodeAll(Leaves(names))
    ensures |Encode(PropList(names))| == 4 + |EncodeAll(Leaves(names))|
  {
    hide EncodeAll, Leaves, Padded, Align4;
    PaddedAlready([]);
    assert [] + EncodeAll(Leaves(names)) == EncodeAll(Leaves(names));
  }

  lemma PropListReads(names: seq<seq<u8>>)
    requires AreAltnames(names) && |names| <= CHUNK
    ensures LinkNames(Attrs(EncodeAll([PropList(names)]), 0)) == names
  {
    hide Attrs, Leaves, Encode, AltNames, Payload;
    var p := PropList(names);
    LeavesAreShort(names);
    PropListPayload(names);
    FirstAttr(p, []);
    LeavesRead(names);
    AttrsStep([], 0);
    assert EncodeAll([p]) == Encode(p) + [];
    var got := Attrs(Encode(p) + [], 0);
    assert got == [(TypeOf(p.kind), Payload(p))];
    assert LinkNames(got) == AltNames(Attrs(Payload(p), 0)) + [];
  }

  /** One request of at most 64 names fits its length fields and asks for just those names. */
  lemma RequestAsks(index: u32, names: seq<seq<u8>>)
    requires AreAltnames(names) && |names| <= CHUNK
    ensures var r := Request(index, names); WithinLengths(r) && LinkNames(Attrs(r, 32)) == names
  {
    hide Attrs, LinkNames, Request, WithinLengths, EncodeAll, Encode, Leaves;
    LeavesAreShort(names);
    PropListPayload(names);
    RequestShape(index, names);
    var p := EncodeAll([PropList(names)]);
    var h :| |h| == 32 && Request(index, names) == h + p;
    AttrsShift(h, p, 0);
    PropListReads(names);
  }

  /** Whatever number of altnames a link has, the requests together ask for exactly those, in
      order, each request within its 16-bit lengths. */
  lemma {:induction false} RequestsAskForAll(index: u32, names: seq<seq<u8>>)
    requires AreAltnames(names)
    ensures var rs := Requests(index, names);
            && Asked(rs) == names
            && forall i :: 0 <= i < |rs| ==> WithinLengths(rs[i])
    decreases |names|
  {
    hide Request, WithinLengths, LinkNames, Attrs;
    if names != [] {
      var k := First(names);
      var some, left := names[..k], names[k..];
      var rs := Requests(index, left);
      RequestAsks(index, some);
      RequestsAskForAll(index, left);
      assert ([Request(index, some)] + rs)[1..] == rs;
      assert names == some + left;
    }
  }
}
