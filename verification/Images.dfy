/** The signed list of software images: a strict reader whose accepted texts are exactly the
    renderings of well-formed lists. */
module Images {
  import opened Decimal
  import opened Text
  import opened Wrappers

  const MAGIC := "KRYPTIK-IMAGES-1"
  const BLOCK := 4096
  const IMAGE_MAX := 0x4_0000_0000

  datatype Image = Image(name: string, version: string, bytes: nat, sha256: string,
                         dataBlocks: nat, rootHash: string, salt: string)

  datatype Manifest = Manifest(release: string, base: string, images: seq<Image>,
                               requirements: seq<(string, seq<string>)>, needs: seq<(string, string)>)

  predicate NameChar(c: char) {
    'a' <= c <= 'z' || '0' <= c <= '9' || c == '-'
  }

  predicate ValidName(s: string) {
    1 <= |s| <= 32 && forall i :: 0 <= i < |s| ==> NameChar(s[i])
  }

  predicate HexChar(c: char) {
    '0' <= c <= '9' || 'a' <= c <= 'f'
  }

  predicate Hex64(s: string) {
    |s| == 64 && forall i :: 0 <= i < |s| ==> HexChar(s[i])
  }

  predicate VersionOk(s: string) {
    1 <= |s| <= 64 && forall i :: 0 <= i < |s| ==> '!' <= s[i] <= '~'
  }

  /** Digits alone, with no leading zero, within 64 bits. */
  function Number(s: string): Option<nat> {
    if !Canonical(s) || Value(s) > U64_MAX then None else Some(Value(s))
  }

  /** The data, then its hash tree, in whole blocks, and nothing past the cap. */
  predicate SizesOk(bytes: nat, dataBlocks: nat) {
    var data := dataBlocks * BLOCK;
    0 < data <= U64_MAX && bytes > data && bytes % 4096 == 0 && bytes <= IMAGE_MAX
  }

  predicate ImageOk(i: Image) {
    && ValidName(i.name) && VersionOk(i.version) && Hex64(i.sha256) && Hex64(i.rootHash) && Hex64(i.salt)
    && i.bytes <= U64_MAX && i.dataBlocks <= U64_MAX && SizesOk(i.bytes, i.dataBlocks)
  }

  // ---- An image's line ----

  function Words7(i: Image): seq<string> {
    [i.name, i.version, "bytes=" + Show(i.bytes), "sha256=" + i.sha256, "data-blocks=" + Show(i.dataBlocks),
     "root-hash=" + i.rootHash, "salt=" + i.salt]
  }

  function ImageText(i: Image): string {
    Join(Words7(i), ' ')
  }

  function NumberOf(word: string, key: string): Option<nat> {
    match Strip(word, key)
    case None => None
    case Some(v) => Number(v)
  }

  function HashOf(word: string, key: string): Option<string> {
    match Strip(word, key)
    case None => None
    case Some(v) => if Hex64(v) then Some(v) else None
  }

  function FromWords(w: seq<string>): Option<Image> {
    if |w| != 7 || !ValidName(w[0]) || !VersionOk(w[1]) then None
    else
      var bytes, sha := NumberOf(w[2], "bytes="), HashOf(w[3], "sha256=");
      var blocks, root, salt := NumberOf(w[4], "data-blocks="), HashOf(w[5], "root-hash="), HashOf(w[6], "salt=");
      if bytes.None? || sha.None? || blocks.None? || root.None? || salt.None?
         || !SizesOk(bytes.value, blocks.value) then None
      else Some(Image(w[0], w[1], bytes.value, sha.value, blocks.value, root.value, salt.value))
  }

  function ImageLine(rest: string): Option<Image> {
    FromWords(Split(rest, ' '))
  }

  lemma NumberReads(key: string, n: nat)
    requires n <= U64_MAX
    ensures NumberOf(key + Show(n), key) == Some(n)
  {
    hide Show, Value;
    ValueOfShown(n);
    StripsItsOwn(key, Show(n));
  }

  lemma NumberRenders(word: string, key: string)
    ensures var r := NumberOf(word, key); r.Some? ==> word == key + Show(r.value) && r.value <= U64_MAX
  {
    hide Show, Value;
    var v := Strip(word, key);
    if v.Some? && Canonical(v.value) { ShownOfValue(v.value); }
  }

  lemma HashReads(key: string, v: string)
    requires Hex64(v)
    ensures HashOf(key + v, key) == Some(v)
  {
    hide Hex64;
    StripsItsOwn(key, v);
  }

  lemma FromWordsRenders(w: seq<string>)
    ensures var r := FromWords(w); r.Some? ==> Words7(r.value) == w && ImageOk(r.value)
  {
    hide Show, NumberOf, Hex64, ValidName, VersionOk, SizesOk;
    if |w| == 7 {
      NumberRenders(w[2], "bytes=");
      NumberRenders(w[4], "data-blocks=");
    }
  }

  lemma WordsRead(i: Image)
    requires ImageOk(i)
    ensures FromWords(Words7(i)) == Some(i)
  {
    hide Show, NumberOf, HashOf, Hex64, ValidName, VersionOk, SizesOk;
    NumberReads("bytes=", i.bytes);
    NumberReads("data-blocks=", i.dataBlocks);
    HashReads("sha256=", i.sha256);
    HashReads("root-hash=", i.rootHash);
    HashReads("salt=", i.salt);
  }

  lemma SpacelessWords(i: Image)
    requires ImageOk(i)
    ensures forall k :: 0 <= k < 7 ==> ' ' !in Words7(i)[k] && '\n' !in Words7(i)[k]
  {
    hide Show, SizesOk;
    var a, b := Show(i.bytes), Show(i.dataBlocks);
    assert forall k :: 0 <= k < |a| ==> IsDigit(a[k]);
    assert forall k :: 0 <= k < |b| ==> IsDigit(b[k]);
  }

  lemma ImageLineRenders(rest: string)
    ensures var r := ImageLine(rest); r.Some? ==> ImageText(r.value) == rest && ImageOk(r.value)
  {
    hide FromWords, Words7, ImageOk;
    FromWordsRenders(Split(rest, ' '));
    JoinSplit(rest, ' ');
  }

  lemma ImageLineReads(i: Image)
    requires ImageOk(i)
    ensures ImageLine(ImageText(i)) == Some(i)
  {
    hide FromWords, ImageOk, Show;
    SpacelessWords(i);
    SplitJoin(Words7(i), ' ');
    WordsRead(i);
  }
}
