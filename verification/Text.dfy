/** Splitting text at a character and at white space, and putting it back together. */
module Text {
  import opened Wrappers

  /** Everything between the `c`s, so one more piece than there are `c`s. */
  function Split(s: string, c: char): (r: seq<string>)
    ensures |r| >= 1
  {
    if s == [] then [[]]
    else
      var r := Split(s[1..], c);
      if s[0] == c then [[]] + r else [[s[0]] + r[0]] + r[1..]
  }

  function Join(parts: seq<string>, c: char): string
    requires |parts| >= 1
  {
    if |parts| == 1 then parts[0] else parts[0] + [c] + Join(parts[1..], c)
  }

  lemma {:induction false} JoinSplit(s: string, c: char)
    ensures Join(Split(s, c), c) == s
  {
    if s != [] {
      var r := Split(s[1..], c);
      JoinSplit(s[1..], c);
      if s[0] == c {
        assert ([[]] + r)[1..] == r;
      } else {
        var q := [[s[0]] + r[0]] + r[1..];
        if |r| == 1 {
          assert Join(q, c) == [s[0]] + r[0];
        } else {
          assert q[1..] == r[1..];
          assert Join(q, c) == [s[0]] + (r[0] + [c] + Join(r[1..], c));
        }
      }
    }
  }

  lemma {:induction false} SplitPiece(s: string, c: char)
    requires c !in s
    ensures Split(s, c) == [s]
  {
    if s != [] {
      SplitPiece(s[1..], c);
      assert [s[0]] + s[1..] == s;
    }
  }

  lemma {:induction false} SplitAfterPiece(a: string, c: char, b: string)
    requires c !in a
    ensures Split(a + [c] + b, c) == [a] + Split(b, c)
  {
    var s := a + [c] + b;
    if a == [] {
      assert s[1..] == b;
    } else {
      assert s[1..] == a[1..] + [c] + b;
      SplitAfterPiece(a[1..], c, b);
      assert [a[0]] + a[1..] == a;
      assert ([a[1..]] + Split(b, c))[1..] == Split(b, c);
    }
  }

  lemma {:induction false} SplitJoin(parts: seq<string>, c: char)
    requires |parts| >= 1 && forall i | 0 <= i < |parts| :: c !in parts[i]
    ensures Split(Join(parts, c), c) == parts
  {
    if |parts| == 1 {
      SplitPiece(parts[0], c);
    } else {
      SplitJoin(parts[1..], c);
      SplitAfterPiece(parts[0], c, Join(parts[1..], c));
    }
  }

  /** No piece holds the separator. */
  lemma {:induction false} PiecesHoldNone(s: string, c: char, i: nat)
    requires i < |Split(s, c)|
    ensures c !in Split(s, c)[i]
  {
    if s != [] {
      var r := Split(s[1..], c);
      if s[0] == c {
        if i > 0 { PiecesHoldNone(s[1..], c, i - 1); }
      } else {
        PiecesHoldNone(s[1..], c, i);
      }
    }
  }

  /** Unicode's White_Space property. */
  predicate IsSpace(c: char) {
    var n := c as int;
    9 <= n <= 13 || n == 32 || n == 0x85 || n == 0xA0 || n == 0x1680 || 0x2000 <= n <= 0x200A ||
    n == 0x2028 || n == 0x2029 || n == 0x202F || n == 0x205F || n == 0x3000
  }

  /** The words of `s`, `word` being what was read of the first one. */
  function WordsAfter(word: string, s: string): seq<string>
    decreases |s|
  {
    if s == [] then (if word == [] then [] else [word])
    else if IsSpace(s[0]) then (if word == [] then [] else [word]) + WordsAfter([], s[1..])
    else WordsAfter(word + [s[0]], s[1..])
  }

  function Words(s: string): seq<string> {
    WordsAfter([], s)
  }

  /** `s` up to the first `c`. */
  function Before(s: string, c: char): string {
    if s == [] || s[0] == c then [] else [s[0]] + Before(s[1..], c)
  }

  /** At the first space. */
  function SplitOnce(s: string): Option<(string, string)> {
    if s == [] then None
    else if s[0] == ' ' then Some(([], s[1..]))
    else
      match SplitOnce(s[1..])
      case None => None
      case Some(p) => Some(([s[0]] + p.0, p.1))
  }

  lemma {:induction false} SplitOnceAt(key: string, value: string)
    requires ' ' !in key
    ensures SplitOnce(key + [' '] + value) == Some((key, value))
  {
    var s := key + [' '] + value;
    if key == [] {
      assert s[1..] == value;
    } else {
      assert s[1..] == key[1..] + [' '] + value;
      SplitOnceAt(key[1..], value);
      assert [key[0]] + key[1..] == key;
    }
  }

  lemma {:induction false} SplitOnceHolds(s: string, c: char)
    ensures SplitOnce(s).Some? && c !in s ==> c !in SplitOnce(s).value.1
  {
    if s != [] && s[0] != ' ' { SplitOnceHolds(s[1..], c); }
  }

  lemma {:induction false} SplitOnceParts(s: string)
    ensures var r := SplitOnce(s); r.Some? ==> ' ' !in r.value.0 && s == r.value.0 + [' '] + r.value.1
  {
    if s != [] {
      if s[0] == ' ' {
        assert s == [] + [' '] + s[1..];
      } else {
        SplitOnceParts(s[1..]);
        assert s == [s[0]] + s[1..];
      }
    }
  }

  /** `strip_prefix` */
  function Strip(s: string, prefix: string): (r: Option<string>)
    ensures r.Some? ==> s == prefix + r.value
  {
    if prefix <= s then Some(s[|prefix|..]) else None
  }

  lemma StripsItsOwn(prefix: string, rest: string)
    ensures Strip(prefix + rest, prefix) == Some(rest)
  {}
}
