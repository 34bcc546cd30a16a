/** The generated block of docs/metrics.md: everything between two markers is replaced. */
module MetricsDoc {
  import opened Types

  const BEGIN: string := "<!-- BEGIN GENERATED: instruments -->"
  const END: string := "<!-- END GENERATED: instruments -->"

  predicate OccursAt(s: string, m: string, i: nat) {
    i + |m| <= |s| && s[i..i + |m|] == m
  }

  ghost predicate Contains(s: string, m: string) {
    exists i :: OccursAt(s, m, i)
  }

  /** The first occurrence of `m` in `s` at or after `from`, or -1. */
  function IndexFrom(s: string, m: string, from: nat): (r: int)
    requires from <= |s|
    ensures r < 0 ==> r == -1 && forall i :: from <= i ==> !OccursAt(s, m, i)
    ensures r >= 0 ==> from <= r && OccursAt(s, m, r) && forall i :: from <= i < r ==> !OccursAt(s, m, i)
    decreases |s| - from
  {
    if OccursAt(s, m, from) then from
    else if from == |s| then -1
    else IndexFrom(s, m, from + 1)
  }

  function Index(s: string, m: string): (r: int)
    ensures r < 0 <==> !Contains(s, m)
    ensures r >= 0 ==> OccursAt(s, m, r) && forall i :: 0 <= i < r ==> !OccursAt(s, m, i)
  {
    IndexFrom(s, m, 0)
  }

  datatype SpliceError = NoBegin | NoEnd | OutOfOrder

  datatype SpliceResult = Spliced(text: string) | Failed(error: SpliceError)

  function Splice(doc: string, table: string): SpliceResult {
    var bi := Index(doc, BEGIN);
    if bi < 0 then Failed(NoBegin)
    else
      var ei := Index(doc, END);
      if ei < 0 then Failed(NoEnd)
      else if ei < bi then Failed(OutOfOrder)
      else Spliced(doc[..bi + |BEGIN|] + "\n" + table + doc[ei..])
  }

  // -------- The markers --------

  /** '<' opens each marker and occurs nowhere else in it; neither holds a newline. */
  lemma MarkerShape()
    ensures |BEGIN| == 37 && |END| == 35
    ensures BEGIN[0] == '<' && END[0] == '<'
    ensures forall i :: 0 < i < |BEGIN| ==> BEGIN[i] != '<'
    ensures forall i :: 0 < i < |END| ==> END[i] != '<'
    ensures '\n' !in BEGIN && '\n' !in END
  {
  }

  lemma AtOccurrence(s: string, m: string, i: nat, k: nat)
    requires OccursAt(s, m, i) && k < |m|
    ensures s[i + k] == m[k]
  {
    assert s[i..i + |m|][k] == m[k];
  }

  /** The first end marker starts after the first begin marker has ended, or before it. */
  lemma MarkersApart(doc: string, bi: nat, ei: nat)
    requires OccursAt(doc, BEGIN, bi) && OccursAt(doc, END, ei) && bi <= ei
    ensures bi + |BEGIN| <= ei
  {
    MarkerShape();
    AtOccurrence(doc, END, ei, 0);
    AtOccurrence(doc, END, ei, 5);
    AtOccurrence(doc, BEGIN, bi, 5);
    if bi < ei < bi + |BEGIN| { AtOccurrence(doc, BEGIN, bi, ei - bi); }
  }

  lemma OccursInPrefix(a: string, b: string, m: string, i: nat, n: nat)
    requires n <= |a| && n <= |b| && a[..n] == b[..n] && i + |m| <= n
    ensures OccursAt(a, m, i) <==> OccursAt(b, m, i)
  {
    assert a[i..i + |m|] == a[..n][i..i + |m|];
    assert b[i..i + |m|] == b[..n][i..i + |m|];
  }

  lemma OccursInSuffix(a: string, b: string, m: string, i: nat, j: nat)
    requires i <= |a| && j <= |b| && a[i..] == b[j..] && OccursAt(a, m, i)
    ensures OccursAt(b, m, j)
  {
    assert a[i..i + |m|] == a[i..][..|m|];
    assert b[j..j + |m|] == b[j..][..|m|];
  }

  // -------- Splicing at known markers --------

  /** `doc` can be spliced: its first begin marker is at `bi`, its first end marker at `ei`. */
  ghost predicate Marked(doc: string, bi: nat, ei: nat) {
    Index(doc, BEGIN) == bi && Index(doc, END) == ei && bi <= ei
  }

  /** The text of `doc` up to `n`, a newline, the table, and `doc` from `ei` on. */
  function Joined(doc: string, n: nat, ei: nat, table: string): string
    requires n <= |doc| && ei <= |doc|
  {
    doc[..n] + "\n" + table + doc[ei..]
  }

  lemma JoinedSlices(doc: string, n: nat, ei: nat, table: string)
    requires n <= |doc| && ei <= |doc|
    ensures var out, e := Joined(doc, n, ei, table), n + 1 + |table|;
            |out| == e + |doc| - ei && out[..n] == doc[..n] && out[n..e] == "\n" + table && out[e..] == doc[ei..]
  {
  }

  lemma BeginStays(doc: string, bi: nat, ei: nat, table: string)
    requires Marked(doc, bi, ei)
    ensures Index(Joined(doc, bi + |BEGIN|, ei, table), BEGIN) == bi
  {
    var n := bi + |BEGIN|;
    var out := Joined(doc, n, ei, table);
    assert out[..n] == doc[..n];
    forall i: nat | i <= bi ensures OccursAt(out, BEGIN, i) <==> OccursAt(doc, BEGIN, i) {
      OccursInPrefix(out, doc, BEGIN, i, n);
    }
  }

  /** `m` has no newline and cannot overlap itself. */
  predicate Solid(m: string) {
    m != [] && '\n' !in m && forall i :: 0 < i < |m| ==> m[i] != m[0]
  }

  /** No occurrence of `m` straddles a join: one that begins before the old
      occurrence's new place lies wholly inside the table. */
  lemma OnlyInTable(doc: string, n: nat, ei: nat, table: string, m: string, j: nat)
    requires Solid(m) && n <= ei && OccursAt(doc, m, ei) && forall i :: 0 <= i < ei ==> !OccursAt(doc, m, i)
    requires j < n + 1 + |table|
    ensures OccursAt(Joined(doc, n, ei, table), m, j) <==> j >= n + 1 && OccursAt(table, m, j - (n + 1))
  {
    var out, k := Joined(doc, n, ei, table), n + 1 + |table|;
    if j + |m| <= n {
      assert out[..n] == doc[..n];
      OccursInPrefix(out, doc, m, j, n);
    } else if j <= n {
      if OccursAt(out, m, j) {
        AtOccurrence(out, m, j, n - j);
      }
    } else if j + |m| <= k {
      assert out[j..j + |m|] == table[j - (n + 1)..j - (n + 1) + |m|];
    } else if OccursAt(out, m, j) {
      AtOccurrence(out, m, j, k - j);
      AtOccurrence(doc, m, ei, 0);
    }
  }

  lemma MarkerMoves(doc: string, n: nat, ei: nat, table: string, m: string)
    requires Solid(m) && n <= ei && OccursAt(doc, m, ei) && forall i :: 0 <= i < ei ==> !OccursAt(doc, m, i)
    ensures var p := Index(table, m);
            Index(Joined(doc, n, ei, table), m) == n + 1 + if p < 0 then |table| else p
  {
    var out, k, p := Joined(doc, n, ei, table), n + 1, Index(table, m);
    forall j: nat | j < k + |table|
      ensures OccursAt(out, m, j) <==> j >= k && OccursAt(table, m, j - k)
    {
      OnlyInTable(doc, n, ei, table, m, j);
    }
    if p < 0 {
      var q := k + |table|;
      JoinedSlices(doc, n, ei, table);
      OccursInSuffix(doc, out, m, ei, q);
      assert forall j: nat :: j < q ==> !OccursAt(out, m, j);
    } else {
      assert OccursAt(table, m, k + p - k);
      assert OccursAt(out, m, k + p);
    }
  }

  lemma EndIsSolid()
    ensures Solid(END)
  {
    MarkerShape();
  }

  lemma EndMoves(doc: string, bi: nat, ei: nat, table: string)
    requires Marked(doc, bi, ei)
    ensures var p := Index(table, END);
            Index(Joined(doc, bi + |BEGIN|, ei, table), END) == bi + |BEGIN| + 1 + if p < 0 then |table| else p
  {
    MarkersApart(doc, bi, ei);
    EndIsSolid();
    MarkerMoves(doc, bi + |BEGIN|, ei, table, END);
  }

  // -------- Theorems --------

  /** A second splice replaces the first one's table, and only that, exactly when the
      first table holds no end marker. */
  lemma SpliceTwice(doc: string, first: string, second: string)
    requires Splice(doc, first).Spliced?
    ensures Splice(Splice(doc, first).text, second) == Splice(doc, second) <==> !Contains(first, END)
  {
    var bi, ei := Index(doc, BEGIN), Index(doc, END);
    var n := bi + |BEGIN|;
    var out := Joined(doc, n, ei, first);
    SpliceJoins(doc, bi, ei, first);
    BeginStays(doc, bi, ei, first);
    EndMoves(doc, bi, ei, first);
    var e := Index(out, END);
    SpliceJoins(out, bi, e, second);
    SpliceJoins(doc, bi, ei, second);
    RejoinedSame(doc, n, ei, first, second, e);
  }

  lemma SpliceJoins(doc: string, bi: nat, ei: nat, table: string)
    requires Marked(doc, bi, ei)
    ensures Splice(doc, table) == Spliced(Joined(doc, bi + |BEGIN|, ei, table))
  {
  }

  /** Joining again at `e` gives what joining once does iff the first table is all replaced. */
  lemma RejoinedSame(doc: string, n: nat, ei: nat, first: string, second: string, e: nat)
    requires n <= |doc| && ei <= |doc| && e <= n + 1 + |first|
    ensures Joined(Joined(doc, n, ei, first), n, e, second) == Joined(doc, n, ei, second) <==> e == n + 1 + |first|
  {
    JoinedSlices(doc, n, ei, first);
    var out := Joined(doc, n, ei, first);
    if e < n + 1 + |first| {
      assert |Joined(out, n, e, second)| != |Joined(doc, n, ei, second)|;
    }
  }

  /** Splicing the same table again changes nothing. */
  lemma SpliceIdempotent(doc: string, table: string)
    requires Splice(doc, table).Spliced? && !Contains(table, END)
    ensures Splice(Splice(doc, table).text, table) == Splice(doc, table)
  {
    SpliceTwice(doc, table, table);
  }

  /** A document cut at its markers; both markers are outside the block. */
  datatype Parts = Parts(before: string, block: string, after: string)

  function CutAt(doc: string, n: nat, e: nat): (p: Parts)
    requires n <= e <= |doc|
    ensures p.before + p.block + p.after == doc
  {
    Parts(doc[..n], doc[n..e], doc[e..])
  }

  function Cut(doc: string): Option<Parts> {
    var bi, ei := Index(doc, BEGIN), Index(doc, END);
    if bi < 0 || ei < bi then None
    else
      MarkersApart(doc, bi, ei);
      Some(CutAt(doc, bi + |BEGIN|, ei))
  }

  /** Splice succeeds exactly when the document has both markers and every end marker comes
      after some begin marker; each error says which of these fails. */
  lemma {:induction false} SpliceSucceedsIff(doc: string, table: string)
    ensures var r := Splice(doc, table);
            && (r.Spliced? <==>
                  && (exists b: nat :: OccursAt(doc, BEGIN, b)) && (exists e: nat :: OccursAt(doc, END, e))
                  && forall e: nat :: OccursAt(doc, END, e) ==> exists b: nat :: b < e && OccursAt(doc, BEGIN, b))
            && (r == Failed(NoBegin) <==> forall b: nat :: !OccursAt(doc, BEGIN, b))
            && (r == Failed(NoEnd) <==>
                  (exists b: nat :: OccursAt(doc, BEGIN, b)) && forall e: nat :: !OccursAt(doc, END, e))
  {
    var bi, ei := Index(doc, BEGIN), Index(doc, END);
    if 0 <= bi <= ei {
      MarkersApart(doc, bi, ei);
      MarkerShape();
      forall e: nat | OccursAt(doc, END, e) ensures exists b: nat :: b < e && OccursAt(doc, BEGIN, b) {
        assert bi < ei <= e;
      }
    } else if 0 <= ei < bi {
      assert forall b: nat :: b < ei ==> !OccursAt(doc, BEGIN, b);
    }
  }

  /** The spliced document cuts into the old surroundings and the new table. */
  lemma SpliceReplacesTheBlock(doc: string, table: string)
    requires Splice(doc, table).Spliced? && !Contains(table, END)
    ensures Cut(doc).Some?
    ensures Cut(Splice(doc, table).text) == Some(Cut(doc).value.(block := "\n" + table))
  {
    var bi, ei := Index(doc, BEGIN), Index(doc, END);
    var n := bi + |BEGIN|;
    var out := Joined(doc, n, ei, table);
    SpliceJoins(doc, bi, ei, table);
    MarkersApart(doc, bi, ei);
    assert Cut(doc) == Some(CutAt(doc, n, ei));
    BeginStays(doc, bi, ei, table);
    EndMoves(doc, bi, ei, table);
    JoinedSlices(doc, n, ei, table);
    assert Cut(out) == Some(CutAt(out, n, n + 1 + |table|));
  }
}
