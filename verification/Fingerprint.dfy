/** The bytes that the configuration fingerprint hashes: for every source its name and
    its content, each followed by a NUL byte. */
module Fingerprint {
  import opened Types

  const NUL: Byte := 0

  datatype Source = Source(name: Bytes, data: Bytes)

  ghost predicate NulFree(b: Bytes) { NUL !in b }

  ghost predicate NamesNulFree(sources: seq<Source>) {
    forall i :: 0 <= i < |sources| ==> NulFree(sources[i].name)
  }

  ghost predicate AllNulFree(sources: seq<Source>) {
    NamesNulFree(sources) && forall i :: 0 <= i < |sources| ==> NulFree(sources[i].data)
  }

  function Field(b: Bytes): Bytes { b + [NUL] }

  function Preimage(sources: seq<Source>): Bytes {
    if sources == [] then []
    else Field(sources[0].name) + Field(sources[0].data) + Preimage(sources[1..])
  }

  /** Name, zero byte, content, zero byte; source after source. */
  lemma {:induction false} PreimageOfOneMore(s: Source, rest: seq<Source>)
    ensures Preimage([]) == []
    ensures Preimage([s] + rest) == s.name + [0] + s.data + [0] + Preimage(rest)
  {
    assert ([s] + rest)[1..] == rest;
    assert s.name + [0] + s.data + [0] + Preimage(rest) == (s.name + [0]) + (s.data + [0]) + Preimage(rest);
  }

  lemma {:induction false} PreimageConcat(a: seq<Source>, b: seq<Source>)
    ensures Preimage(a + b) == Preimage(a) + Preimage(b)
  {
    if a == [] {
      assert a + b == b;
    } else {
      assert (a + b)[1..] == a[1..] + b;
      PreimageConcat(a[1..], b);
    }
  }

  /** The loop that feeds the hash; `written` is all that has been written to it. */
  method Feed(sources: seq<Source>) returns (written: Bytes)
    ensures written == Preimage(sources)
  {
    written := [];
    for i := 0 to |sources|
      invariant written == Preimage(sources[..i])
    {
      var s := sources[i];
      ghost var before := written;
      written := written + s.name;
      written := written + [NUL];
      written := written + s.data;
      written := written + [NUL];
      assert written == before + (Field(s.name) + Field(s.data) + Preimage([]));
      assert sources[..i + 1] == sources[..i] + [s];
      PreimageConcat(sources[..i], [s]);
      assert [s][1..] == [];
    }
    assert sources[..|sources|] == sources;
  }

  // -------- Decoding --------

  /** The number of bytes before the first NUL. */
  function FirstNul(b: Bytes): (n: nat)
    ensures n <= |b| && NulFree(b[..n]) && (n < |b| ==> b[n] == NUL)
  {
    if b == [] || b[0] == NUL then 0 else 1 + FirstNul(b[1..])
  }

  lemma {:induction false} FirstNulOfField(x: Bytes, rest: Bytes)
    requires NulFree(x)
    ensures FirstNul(Field(x) + rest) == |x|
  {
    if x != [] {
      assert (Field(x) + rest)[1..] == Field(x[1..]) + rest;
      FirstNulOfField(x[1..], rest);
    }
  }

  /** The bytes up to the first NUL, and those after it. */
  function NextField(b: Bytes): (r: Option<(Bytes, Bytes)>)
    ensures r.Some? ==> |r.value.1| < |b|
  {
    var n := FirstNul(b);
    if n == |b| then None else Some((b[..n], b[n + 1..]))
  }

  lemma {:induction false} NextOfField(x: Bytes, rest: Bytes)
    requires NulFree(x)
    ensures NextField(Field(x) + rest) == Some((x, rest))
  {
    FirstNulOfField(x, rest);
    assert (Field(x) + rest)[..|x|] == x;
  }

  /** Reads the sources back: alternately a name and a content, each up to its NUL. */
  function Decode(b: Bytes): seq<Source>
    decreases |b|
  {
    var name := NextField(b);
    if name.None? then []
    else
      var data := NextField(name.value.1);
      if data.None? then [] else [Source(name.value.0, data.value.0)] + Decode(data.value.1)
  }

  lemma {:induction false} DecodeStep(s: Source, rest: Bytes)
    requires NulFree(s.name) && NulFree(s.data)
    ensures Decode(Field(s.name) + Field(s.data) + rest) == [s] + Decode(rest)
  {
    assert Field(s.name) + Field(s.data) + rest == Field(s.name) + (Field(s.data) + rest);
    NextOfField(s.name, Field(s.data) + rest);
    NextOfField(s.data, rest);
  }

  /** Decoding inverts the preimage of every list without NUL bytes. */
  lemma {:induction false} DecodeInvertsPreimage(sources: seq<Source>)
    requires AllNulFree(sources)
    ensures Decode(Preimage(sources)) == sources
  {
    if sources != [] {
      assert AllNulFree(sources[1..]);
      DecodeInvertsPreimage(sources[1..]);
      DecodeStep(sources[0], Preimage(sources[1..]));
    }
  }

  /** Adding, removing, renaming, reordering or editing a file changes what is hashed. */
  lemma {:induction false} AnyChangeShows(a: seq<Source>, b: seq<Source>)
    requires AllNulFree(a) && AllNulFree(b) && a != b
    ensures Preimage(a) != Preimage(b)
  {
    DecodeInvertsPreimage(a);
    DecodeInvertsPreimage(b);
  }

  // -------- Contents that hold NUL bytes --------

  function Nuls(b: Bytes): nat {
    if b == [] then 0 else Nuls(b[1..]) + if b[0] == NUL then 1 else 0
  }

  lemma {:induction false} NulsConcat(a: Bytes, b: Bytes)
    ensures Nuls(a + b) == Nuls(a) + Nuls(b)
  {
    if a == [] {
      assert a + b == b;
    } else {
      assert (a + b)[1..] == a[1..] + b;
      NulsConcat(a[1..], b);
    }
  }

  lemma {:induction false} NulFreeNuls(b: Bytes)
    ensures NulFree(b) <==> Nuls(b) == 0
  {
    if b != [] {
      NulFreeNuls(b[1..]);
      assert b == [b[0]] + b[1..];
    }
  }

  lemma {:induction false} PreimageNuls(sources: seq<Source>)
    ensures Nuls(Preimage(sources)) >= 2 * |sources|
    ensures |sources| == 1 ==> Nuls(Preimage(sources)) == 2 + Nuls(sources[0].name) + Nuls(sources[0].data)
  {
    if sources != [] {
      var s, rest := sources[0], sources[1..];
      PreimageNuls(rest);
      NulsConcat(Field(s.name) + Field(s.data), Preimage(rest));
      NulsConcat(Field(s.name), Field(s.data));
      NulsConcat(s.name, [NUL]);
      NulsConcat(s.data, [NUL]);
      assert [NUL][1..] == [];
      assert Nuls([NUL]) == 1;
    }
  }

  /** Another list of sources, also with NUL-free names, has the same preimage. */
  ghost predicate Collides(a: seq<Source>) {
    exists b :: NamesNulFree(b) && b != a && Preimage(b) == Preimage(a)
  }

  lemma {:induction false} TwoSourcesAsOne(x: Source, y: Source, rest: seq<Source>)
    ensures Preimage([Source(x.name, x.data + [NUL] + y.name + [NUL] + y.data)] + rest) ==
            Preimage([x, y] + rest)
  {
    var z := Source(x.name, x.data + [NUL] + y.name + [NUL] + y.data);
    PreimageConcat([z], rest);
    PreimageConcat([x, y], rest);
    assert [z][1..] == [] && [x, y][1..] == [y] && [y][1..] == [];
    assert Preimage([z]) == Preimage([x, y]);
  }

  lemma {:induction false} SplitAtNul(b: Bytes) returns (x: Bytes, y: Bytes)
    requires Nuls(b) > 0
    ensures b == x + [NUL] + y && NulFree(x) && Nuls(y) == Nuls(b) - 1
  {
    var n := FirstNul(b);
    if n == |b| {
      assert b[..n] == b;
      NulFreeNuls(b);
    } else {
      x, y := b[..n], b[n + 1..];
      assert b == x + ([NUL] + y);
      NulsSplit(x, y);
    }
  }

  lemma {:induction false} NulsSplit(x: Bytes, y: Bytes)
    requires NulFree(x)
    ensures Nuls(x + ([NUL] + y)) == 1 + Nuls(y)
  {
    NulFreeNuls(x);
    NulsConcat(x, [NUL] + y);
    assert ([NUL] + y)[1..] == y;
  }

  lemma {:induction false} OneSourceIsDetermined(x: Source, y: Source)
    requires NulFree(x.name) && NulFree(y.name) && Preimage([x]) == Preimage([y])
    ensures x == y
  {
    assert [x][1..] == [] && [y][1..] == [];
    var b := Preimage([x]);
    assert b == Field(x.name) + Field(x.data) && b == Field(y.name) + Field(y.data);
    FirstNulOfField(x.name, Field(x.data));
    FirstNulOfField(y.name, Field(y.data));
    var n := |x.name|;
    assert b[..n] == x.name && b[..n] == y.name;
    assert b[n + 1..] == Field(x.data) && b[n + 1..] == Field(y.data);
    assert x.data == Field(x.data)[..|b| - n - 2] && y.data == Field(y.data)[..|b| - n - 2];
  }

  /** Two neighbouring sources read as one whose content holds the bytes between. */
  lemma {:induction false} NeighboursCollide(a: seq<Source>)
    requires NamesNulFree(a) && |a| >= 2
    ensures Collides(a)
  {
    var z := Source(a[0].name, a[0].data + [NUL] + a[1].name + [NUL] + a[1].data);
    TwoSourcesAsOne(a[0], a[1], a[2..]);
    assert [a[0], a[1]] + a[2..] == a;
    var b := [z] + a[2..];
    assert NamesNulFree(b) && |b| != |a|;
  }

  /** A content with two NUL bytes reads as two contents with a name between. */
  lemma {:induction false} ContentCollides(s: Source)
    requires NulFree(s.name) && Nuls(s.data) >= 2
    ensures Collides([s])
  {
    var x, more := SplitAtNul(s.data);
    var y, z := SplitAtNul(more);
    var b := [Source(s.name, x), Source(y, z)];
    TwoSourcesAsOne(b[0], b[1], []);
    assert b + [] == b;
    assert x + [NUL] + (y + [NUL] + z) == x + [NUL] + y + [NUL] + z;
    assert [s] == [Source(s.name, x + [NUL] + y + [NUL] + z)] + [];
    assert NamesNulFree(b) && |b| != 1;
  }

  /** With names free of NUL but contents arbitrary, the preimage fails to determine the
      sources exactly with two or more sources, or with one whose content holds two NUL
      bytes or more. */
  lemma {:induction false} CollidesIffAmbiguous(a: seq<Source>)
    requires NamesNulFree(a)
    ensures Collides(a) <==> |a| >= 2 || (|a| == 1 && Nuls(a[0].data) >= 2)
  {
    PreimageNuls(a);
    if |a| >= 2 {
      NeighboursCollide(a);
    } else if |a| == 1 && Nuls(a[0].data) >= 2 {
      ContentCollides(a[0]);
      assert a == [a[0]];
    } else if Collides(a) {
      var b :| NamesNulFree(b) && b != a && Preimage(b) == Preimage(a);
      PreimageNuls(b);
      if |a| == 1 {
        NulFreeNuls(a[0].name);
        assert a == [a[0]] && b == [b[0]];
        OneSourceIsDetermined(a[0], b[0]);
      }
    }
  }
}
