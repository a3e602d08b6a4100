/** A file handed to another zone: copied under a cap while its source may change, into a fresh
    name, or not at all. */
module Broker {
  import opened Bytes
  import opened Decimal

  const CHUNK := 0x10_0000   // one copy_file_range
  const BUFFER := 0x1_0000   // one read of the fallback
  const CANDIDATES := 100

  /** One attempt at the next bytes, the source file as it is then. */
  datatype Try =
    | Gives(file: seq<u8>, n: nat)                 // up to `n` bytes, or the end of the file
    | Interrupted
    | Unsupported                                  // by copy_file_range, between these files
    | Failed
    | WriteFails(file: seq<u8>, n: nat, k: nat)    // read, but the write stops after `k` bytes

  datatype Copied = Total(n: nat) | Error | Running

  function Min(a: nat, b: nat): nat {
    if a < b then a else b
  }

  /** What an attempt for at most `limit` bytes at `at` gives: something, unless the file ends. */
  function Chunk(file: seq<u8>, at: nat, n: nat, limit: nat): (r: seq<u8>)
    requires limit > 0
    ensures |r| <= limit && (r == [] <==> at >= |file|)
    ensures at + |r| <= |file| || r == []
    ensures r != [] ==> r == file[at..at + |r|]
  {
    if at >= |file| then []
    else file[at..at + Min(Min(if n == 0 then 1 else n, limit), |file| - at)]
  }

  /** Attempts that give bytes, each at least one. */
  ghost function Givers(tries: seq<Try>): nat {
    if tries == [] then 0
    else Givers(tries[..|tries| - 1]) + if tries[|tries| - 1].Gives? then 1 else 0
  }

  /** Each byte was at its own offset of the file at some attempt. */
  ghost predicate FromSource(data: seq<u8>, tries: seq<Try>) {
    forall i :: 0 <= i < |data| ==>
      exists k :: 0 <= k < |tries| && (tries[k].Gives? || tries[k].WriteFails?)
                  && i < |tries[k].file| && tries[k].file[i] == data[i]
  }

  /** The file did not change while it was copied. */
  ghost predicate Steady(tries: seq<Try>, file: seq<u8>) {
    forall k :: 0 <= k < |tries| && (tries[k].Gives? || tries[k].WriteFails?) ==> tries[k].file == file
  }

  ghost predicate Smooth(tries: seq<Try>) {
    forall k :: 0 <= k < |tries| ==> tries[k].Gives? || tries[k].Interrupted?
  }

  lemma FromSourceGrows(data: seq<u8>, tries: seq<Try>, k: nat, got: seq<u8>)
    requires FromSource(data, tries) && k < |tries| && (tries[k].Gives? || tries[k].WriteFails?)
    requires |data| + |got| <= |tries[k].file| && got == tries[k].file[|data|..|data| + |got|]
    ensures FromSource(data + got, tries)
  {
    var all := data + got;
    forall i | 0 <= i < |all|
      ensures exists k :: 0 <= k < |tries| && (tries[k].Gives? || tries[k].WriteFails?)
                          && i < |tries[k].file| && tries[k].file[i] == all[i]
    {
      if i >= |data| { assert tries[k].file[i] == got[i - |data|]; }
    }
  }

  /** What a finished or failed copy leaves. */
  ghost predicate IsCopy(r: Copied, data: seq<u8>, cap: nat, tries: seq<Try>) {
    && |data| <= cap + 1 && FromSource(data, tries)
    && (r.Total? ==> r.n == |data| <= cap && exists k :: 0 <= k < |tries| && tries[k].Gives? && |tries[k].file| <= r.n)
    && (r.Error? ==> |data| == cap + 1 || !Smooth(tries))
    && (r.Running? ==> Givers(tries) <= |data| <= cap && Failed !in tries)
  }

  /** Of a steady file: whole, and only if it is within the cap. */
  ghost predicate SteadyCopy(r: Copied, data: seq<u8>, cap: nat, tries: seq<Try>) {
    forall file: seq<u8> :: Steady(tries, file) ==>
      data <= file && (r.Total? ==> data == file) && (r.Error? && |file| <= cap ==> !Smooth(tries))
  }

  /** A file being written. */
  class Out {
    var data: seq<u8>

    constructor ()
      ensures data == []
    {
      data := [];
    }

    /** Copy from byte 0, at most one byte past the cap. */
    method CopyCapped(cap: nat, tries: seq<Try>) returns (r: Copied)
      requires data == [] && cap < U64_MAX
      modifies this
      ensures IsCopy(r, data, cap, tries) && SteadyCopy(r, data, cap, tries)
    {
      hide Chunk, FromSource, Smooth;
      FromSourceNone(tries);
      var total, fallback, k := 0, false, 0;
      while k < |tries|
        invariant k <= |tries| && total == |data| <= cap && FromSource(data, tries)
        invariant Givers(tries[..k]) <= |data| && Failed !in tries[..k]
        invariant forall file :: Steady(tries, file) ==> data <= file
      {
        assert tries[..k + 1][..k] == tries[..k];
        var left: nat := cap + 1 - total;
        var want := Min(CHUNK, left);
        match tries[k] {
          case Interrupted =>
          case Unsupported =>
            NotSmooth(tries, k);
            if fallback || total > 0 { return Error; }
            fallback := true;
          case Failed =>
            NotSmooth(tries, k);
            return Error;
          case WriteFails(file, n, j) =>
            NotSmooth(tries, k);
            if fallback {
              var got := Chunk(file, total, n, Min(BUFFER, want));
              Append(got[..Min(j, |got|)], k, tries);
            }
            return Error;
          case Gives(file, n) =>
            var got := Chunk(file, total, n, if fallback then Min(BUFFER, want) else want);
            if got == [] { return Total(total); }
            Append(got, k, tries);
            total := total + |got|;
            if total > cap { return Error; }
        }
        k := k + 1;
      }
      assert tries[..k] == tries;
      r := Running;
    }

    method Append(got: seq<u8>, ghost k: nat, ghost tries: seq<Try>)
      requires FromSource(data, tries) && k < |tries| && (tries[k].Gives? || tries[k].WriteFails?)
      requires got != [] ==> |data| + |got| <= |tries[k].file| && got == tries[k].file[|data|..|data| + |got|]
      requires forall file :: Steady(tries, file) ==> data <= file
      modifies this
      ensures data == old(data) + got && FromSource(data, tries)
      ensures forall file :: Steady(tries, file) ==> data <= file
    {
      hide FromSource;
      if got != [] { FromSourceGrows(data, tries, k, got); } else { assert data + got == data; }
      ghost var was := data;
      data := data + got;
      forall file | Steady(tries, file) ensures data <= file {
        assert tries[k].file == file && was <= file;
        assert got != [] ==> was + got == file[..|was|] + file[|was|..|was| + |got|];
      }
    }
  }

  lemma FromSourceNone(tries: seq<Try>)
    ensures FromSource([], tries)
  {}

  lemma NotSmooth(tries: seq<Try>, k: nat)
    requires k < |tries| && !tries[k].Gives? && !tries[k].Interrupted?
    ensures !Smooth(tries)
  {}

  // ---- Delivery ----

  /** The name asked for, then 99 numbered variants of it. */
  function Candidate(name: string, i: nat): string {
    if i == 1 then name else name + "-" + Show(i)
  }

  lemma CandidatesDiffer(name: string, i: nat, j: nat)
    requires 1 <= i < j
    ensures Candidate(name, i) != Candidate(name, j)
  {
    hide Show;
    ValueOfShown(i);
    ValueOfShown(j);
    var a, b := Candidate(name, i), Candidate(name, j);
    assert b[|name| + 1..] == Show(j);
    assert i != 1 ==> a[|name| + 1..] == Show(i);
  }

  /** What else can go wrong on the way. */
  datatype Trouble = Trouble(
    reachable: bool,    // incoming/ is there, a plain directory, the zone's own
    opens: bool,        // a free name can be created
    owns: bool,         // its owner can be set
    syncs: bool,
    unlinks: bool)      // a file begun can be taken away again

  datatype Delivery = Delivered(name: string, n: nat) | Refused | Waiting

  ghost predicate FirstFree(files: map<string, seq<u8>>, name: string, i: nat) {
    1 <= i <= CANDIDATES && Candidate(name, i) !in files && forall j :: 1 <= j < i ==> Candidate(name, j) in files
  }

  class Incoming {
    var files: map<string, seq<u8>>

    /** The copied bytes, or why not: `size` bytes, no more and no fewer. */
    method Fill(out: Out, size: nat, tries: seq<Try>, t: Trouble) returns (r: Copied)
      requires out.data == [] && size < U64_MAX
      modifies out
      ensures |out.data| <= size + 1 && FromSource(out.data, tries)
      ensures r.Total? ==> r.n == size == |out.data|
      ensures r.Running? ==> Givers(tries) <= size && Failed !in tries
      ensures forall file :: Steady(tries, file) ==>
                && (r.Total? ==> out.data == file)
                && (r.Error? && |file| == size && Smooth(tries) ==> !t.owns || !t.syncs)
    {
      hide FromSource, Smooth, Steady;
      if !t.owns {
        FromSourceNone(tries);
        return Error;
      }
      r := out.CopyCapped(size, tries);
      if r.Total? && (r.n != size || !t.syncs) { r := Error; }
    }

    /** Into the first free candidate. Success: a fresh name with exactly `size` bytes. Failure: the
        directory as it was, exactly when what was begun could be taken away. */
    method DeliverInto(name: string, size: nat, tries: seq<Try>, t: Trouble) returns (d: Delivery)
      requires size < U64_MAX
      modifies this
      ensures d.Delivered? ==>
                && d.n == size && d.name in files && |files[d.name]| == size
                && files == old(files)[d.name := files[d.name]]
                && FromSource(files[d.name], tries)
                && exists i :: FirstFree(old(files), name, i) && d.name == Candidate(name, i)
      ensures d.Waiting? ==> Givers(tries) <= size && Failed !in tries
      ensures d.Refused? ==>
                (files != old(files) <==>
                 !t.unlinks && t.reachable && t.opens && exists i :: FirstFree(old(files), name, i))
      ensures d.Refused? && !t.unlinks && files != old(files) ==>
                exists i :: FirstFree(old(files), name, i) && files.Keys == old(files).Keys + {Candidate(name, i)}
      ensures forall f :: f in old(files) ==> f in files && files[f] == old(files)[f]
      ensures forall f :: f in files && f !in old(files) ==> |files[f]| <= size + 1
      ensures forall file :: Steady(tries, file) ==>
                && (d.Delivered? ==> files[d.name] == file)
                && (d.Refused? && |file| == size && Smooth(tries) && t.reachable && t.opens && t.owns && t.syncs ==>
                      forall i :: 1 <= i <= CANDIDATES ==> Candidate(name, i) in old(files))
    {
      hide FromSource, Smooth, Steady, Candidate;
      if !t.reachable { return Refused; }
      var i := 1;
      while i <= CANDIDATES
        invariant 1 <= i <= CANDIDATES + 1 && files == old(files)
        invariant forall j :: 1 <= j < i ==> Candidate(name, j) in files
      {
        var cand := Candidate(name, i);
        if cand !in files {
          if !t.opens { return Refused; }
          assert FirstFree(files, name, i);
          var out := new Out();
          var r := Fill(out, size, tries, t);
          files := files[cand := out.data];
          match r {
            case Total(n) => return Delivered(cand, n);
            case Running => return Waiting;
            case Error =>
              if t.unlinks { files := files - {cand}; }
              return Refused;
          }
        }
        i := i + 1;
      }
      d := Refused;
    }
  }
}
