/**
 Keys: identifiers cut into zero-padded chunks and put together again (identifier_create,
 identifier_to_buffer, build_identifier_from_chunks), and the two orders on paths: the one of
 path_compare and the one of the flattened chunk sequence, by which the trie is sorted.
 */
module Keys {
  import opened Common
  import opened NodeStore

  /** What comparisons see of an identifier: its chunks. */
  type Ident = seq<Chunk>
  type Path = seq<Ident>

  // ---------------------------------------------------------------- chunking

  function Zeros(n: nat): (z: Bytes)
    ensures |z| == n
  {
    seq(n, _ => 0)
  }

  function Chunked(b: Bytes, cs: nat): (cks: seq<Chunk>)
    requires cs > 0
    ensures |cks| > 0
    decreases |b|
  {
    if |b| <= cs then [b + Zeros(cs - |b|)] else [b[..cs]] + Chunked(b[cs..], cs)
  }

  /** How many chunks n bytes take; an empty identifier still takes one. */
  function ChunkCount(n: nat, cs: nat): nat
    requires cs > 0
  {
    if n == 0 then 1 else (n - 1) / cs + 1
  }

  /** Byte j of chunk i is byte i * cs + j of the identifier, or zero past its end. */
  ghost predicate CutAt(b: Bytes, cs: nat, cks: seq<Chunk>, i: nat, j: nat)
    requires i < |cks| && j < |cks[i]|
  {
    cks[i][j] == if i * cs + j < |b| then b[i * cs + j] else 0
  }

  ghost predicate Cut(b: Bytes, cs: nat, cks: seq<Chunk>)
    requires cs > 0
  {
    && |cks| == ChunkCount(|b|, cs) && Full(cks, cs)
    && forall i, j | 0 <= i < |cks| && 0 <= j < |cks[i]| :: CutAt(b, cs, cks, i, j)
  }

  /** The chunks of an identifier, byte by byte. */
  lemma {:induction false} ChunkedIs(b: Bytes, cs: nat)
    requires cs > 0
    ensures Cut(b, cs, Chunked(b, cs))
    decreases |b|
  {
    var cks := Chunked(b, cs);
    if |b| <= cs {
      SmallDiv(|b|, cs);
    } else {
      var rest := Chunked(b[cs..], cs);
      ChunkedIs(b[cs..], cs);
      CountStep(|b|, cs);
      assert cks == [b[..cs]] + rest;
      hide Chunked, ChunkCount;
      forall i, j | 0 <= i < |cks| && 0 <= j < |cks[i]| ensures |cks[i]| == cs && CutAt(b, cs, cks, i, j) {
        if i > 0 { CutNext(b, cs, cks, rest, i, j); }
      }
      forall i | 0 <= i < |cks| ensures |cks[i]| == cs { if i > 0 { assert cks[i] == rest[i - 1]; } }
    }
  }

  lemma CutNext(b: Bytes, cs: nat, cks: seq<Chunk>, rest: seq<Chunk>, i: nat, j: nat)
    requires cs > 0 && |b| > cs && Cut(b[cs..], cs, rest) && cks == [b[..cs]] + rest && 0 < i < |cks| && j < |cks[i]|
    ensures |cks[i]| == cs && CutAt(b, cs, cks, i, j)
  {
    hide ChunkCount;
    assert cks[i] == rest[i - 1] && CutAt(b[cs..], cs, rest, i - 1, j);
    var k := (i - 1) * cs + j;
    assert i * cs + j == k + cs by { assert i * cs == (i - 1) * cs + cs; }
    assert k < |b| - cs ==> b[cs..][k] == b[k + cs];
  }

  lemma SmallDiv(n: nat, cs: nat)
    requires cs > 0 && n <= cs
    ensures ChunkCount(n, cs) == 1
  {
    if n > 0 { DivIs(n - 1, cs, 0, n - 1); }
  }

  lemma CountStep(n: nat, cs: nat)
    requires cs > 0 && n > cs
    ensures ChunkCount(n, cs) == ChunkCount(n - cs, cs) + 1
  {
    assert (n - 1) == (n - 1 - cs) + cs;
    DivPlus(n - 1 - cs, cs);
  }

  lemma DivPlus(n: nat, cs: nat)
    requires cs > 0
    ensures (n + cs) / cs == n / cs + 1
  {
    var q, r := n / cs, n % cs;
    assert n + cs == (q + 1) * cs + r;
    DivIs(n + cs, cs, q + 1, r);
  }

  lemma DivIs(n: nat, cs: nat, q: nat, r: nat)
    requires cs > 0 && n == q * cs + r && r < cs
    ensures n / cs == q
  {
    var p := n / cs;
    assert n == p * cs + n % cs;
    MulLess(p, q, cs);
    MulLess(q, p, cs);
  }

  lemma {:induction false} MulLess(p: nat, q: nat, cs: nat)
    ensures p < q ==> p * cs + cs <= q * cs
    decreases q
  {
    if p < q {
      MulLess(p, q - 1, cs);
      assert q * cs == (q - 1) * cs + cs;
    }
  }

  function Joined(cks: seq<Chunk>): Bytes {
    if cks == [] then [] else cks[0] + Joined(cks[1..])
  }

  ghost predicate Full(cks: seq<Chunk>, cs: nat) {
    forall i | 0 <= i < |cks| :: |cks[i]| == cs
  }

  lemma {:induction false} JoinedLength(cks: seq<Chunk>, cs: nat)
    requires Full(cks, cs)
    ensures |Joined(cks)| == cs * |cks|
  {
    if cks != [] {
      JoinedLength(cks[1..], cs);
      assert cs + cs * (|cks| - 1) == cs * |cks|;
    }
  }

  /** Joining the chunks gives back the bytes, then padding shorter than one chunk. */
  lemma {:induction false} JoinedChunked(b: Bytes, cs: nat)
    requires cs > 0
    ensures Full(Chunked(b, cs), cs)
    ensures |b| <= |Joined(Chunked(b, cs))| && Joined(Chunked(b, cs))[..|b|] == b
    ensures b != [] ==> |Joined(Chunked(b, cs))| < |b| + cs
    decreases |b|
  {
    hide Joined;
    if |b| <= cs {
      JoinedOne(b + Zeros(cs - |b|));
    } else {
      JoinedChunked(b[cs..], cs);
      var rest := Chunked(b[cs..], cs);
      JoinedMore(b[..cs], rest);
      hide Chunked;
      assert b == b[..cs] + b[cs..];
      assert (b[..cs] + Joined(rest))[..|b|] == b[..cs] + Joined(rest)[..|b| - cs];
    }
  }

  lemma JoinedOne(c: Chunk)
    ensures Joined([c]) == c
  {
    assert [c][1..] == [] && c + [] == c;
  }

  lemma JoinedMore(c: Chunk, rest: seq<Chunk>)
    ensures Joined([c] + rest) == c + Joined(rest)
  {
    assert ([c] + rest)[1..] == rest;
  }

  /** identifier_create. */
  method IdentifierCreate(b: Bytes, cs: nat) returns (cks: seq<Chunk>)
    requires cs > 0
    ensures cks == Chunked(b, cs) && Cut(b, cs, cks)
  {
    ChunkedIs(b, cs);
    hide Cut;
    cks := [];
    var at := 0;
    while |b| - at > cs
      invariant 0 <= at <= |b|
      invariant Chunked(b, cs) == cks + Chunked(b[at..], cs)
    {
      assert b[at..][..cs] == b[at..at + cs] && b[at..][cs..] == b[at + cs..];
      cks := cks + [b[at..at + cs]];
      at := at + cs;
    }
    cks := cks + [b[at..] + Zeros(cs - (|b| - at))];
  }

  /** identifier_to_buffer: the inverse, given the recorded length. */
  method ToBuffer(cks: seq<Chunk>, length: nat, cs: nat) returns (b: Bytes)
    requires Full(cks, cs) && length <= cs * |cks| && cs * (|cks| - 1) <= length
    ensures |Joined(cks)| == cs * |cks| && b == Joined(cks)[..length]
  {
    JoinedLength(cks, cs);
    b := [];
    var i := 0;
    while i < |cks|
      invariant 0 <= i <= |cks|
      invariant |b| == (if i == |cks| then (if cks == [] then 0 else length) else cs * i)
      invariant |Joined(cks[..i])| == cs * i && b == Joined(cks[..i])[..|b|]
    {
      JoinedPush(cks, i);
      JoinedLength(cks[..i], cs);
      JoinedLength(cks[..i + 1], cs);
      assert i < |cks| - 1 ==> cs * (i + 1) == cs * i + cs;
      var n := if i == |cks| - 1 then length - cs * i else cs;
      b := b + cks[i][..n];
      i := i + 1;
    }
    assert cks[..i] == cks;
  }

  lemma {:induction false} JoinedPush(cks: seq<Chunk>, i: nat)
    requires i < |cks|
    ensures Joined(cks[..i + 1]) == Joined(cks[..i]) + cks[i]
    decreases i
  {
    if i > 0 {
      JoinedPush(cks[1..], i - 1);
      assert cks[..i + 1][1..] == cks[1..][..i] && cks[..i][1..] == cks[1..][..i - 1];
    } else {
      assert cks[..1][1..] == [];
    }
  }

  /** Create, then to_buffer: the bytes come back exactly. */
  method RoundTrip(b: Bytes, cs: nat) returns (again: Bytes)
    requires cs > 0
    ensures again == b
  {
    var cks := IdentifierCreate(b, cs);
    JoinedChunked(b, cs);
    JoinedLength(cks, cs);
    assert cs * (|cks| - 1) == cs * |cks| - cs;
    again := ToBuffer(cks, |b|, cs);
  }

  /** build_identifier_from_chunks; a byte length of 0 means all bytes, padding included. */
  function Rebuilt(cks: seq<Chunk>, byteLength: nat, cs: nat): Ident
    requires cs > 0
  {
    Chunked(RebuiltBytes(cks, byteLength), cs)
  }

  function RebuiltBytes(cks: seq<Chunk>, byteLength: nat): Bytes {
    var all := Joined(cks);
    if 0 < byteLength <= |all| then all[..byteLength] else all
  }

  /** A stored identifier is rebuilt with the same chunks; its bytes are the same exactly when it
      was not empty (the empty identifier comes back as one chunk of zeros). */
  lemma RebuiltExact(b: Bytes, cs: nat)
    requires cs > 0
    ensures Rebuilt(Chunked(b, cs), |b|, cs) == Chunked(b, cs)
    ensures RebuiltBytes(Chunked(b, cs), |b|) == b <==> b != []
  {
    JoinedChunked(b, cs);
    if b == [] {
      assert Chunked(b, cs)[1..] == [];
      assert Joined(Chunked(b, cs)) == Zeros(cs);
      assert Zeros(cs) == Zeros(cs) + Zeros(0) == [] + Zeros(cs);
      assert Chunked(Zeros(cs), cs) == [Zeros(cs)];
    }
  }

  // ---------------------------------------------------------------- paths

  function Flat(p: Path): seq<Chunk> {
    if p == [] then [] else p[0] + Flat(p[1..])
  }

  function CutPath(p: seq<Bytes>, cs: nat): (q: Path)
    requires cs > 0
    ensures |q| == |p|
  {
    if p == [] then [] else [Chunked(p[0], cs)] + CutPath(p[1..], cs)
  }

  /** Each identifier is cut by itself, and its chunks stand in the flat key in order. */
  lemma {:induction false} CutPathIs(p: seq<Bytes>, cs: nat, i: nat)
    requires cs > 0 && i < |p|
    ensures CutPath(p, cs)[i] == Chunked(p[i], cs)
    ensures MetaOf(p, cs)[i] == Meta(|Chunked(p[i], cs)|, |p[i]|)
  {
    if i > 0 { CutPathIs(p[1..], cs, i - 1); }
  }

  /** The metadata an insert stores with the leaf entry. */
  function MetaOf(p: seq<Bytes>, cs: nat): (m: seq<Meta>)
    requires cs > 0
    ensures |m| == |p|
  {
    if p == [] then [] else [Meta(|Chunked(p[0], cs)|, |p[0]|)] + MetaOf(p[1..], cs)
  }

  /** The identifiers a scan cuts from the chunks it collected, following the metadata. */
  function Split(cks: seq<Chunk>, meta: seq<Meta>, cs: nat): Path
    requires cs > 0
  {
    if meta == [] then []
    else
      var n := if meta[0].chunks <= |cks| then meta[0].chunks else |cks|;
      [Rebuilt(cks[..n], meta[0].bytes, cs)] + Split(cks[n..], meta[1..], cs)
  }

  /** Path of a leaf entry; without metadata all chunks make one identifier. */
  function PathOf(cks: seq<Chunk>, meta: seq<Meta>, cs: nat): Path
    requires cs > 0
  {
    if meta == [] then [Rebuilt(cks, 0, cs)] else Split(cks, meta, cs)
  }

  /** A scan reports every stored path as it was inserted. */
  lemma {:induction false} SplitExact(p: seq<Bytes>, cs: nat)
    requires cs > 0
    ensures Split(Flat(CutPath(p, cs)), MetaOf(p, cs), cs) == CutPath(p, cs)
  {
    if p != [] {
      var c, rest := Chunked(p[0], cs), CutPath(p[1..], cs);
      assert CutPath(p, cs)[1..] == rest;
      assert Flat(CutPath(p, cs)) == c + Flat(rest);
      assert (c + Flat(rest))[..|c|] == c && (c + Flat(rest))[|c|..] == Flat(rest);
      assert MetaOf(p, cs)[1..] == MetaOf(p[1..], cs);
      RebuiltExact(p[0], cs);
      SplitExact(p[1..], cs);
    }
  }

  lemma {:induction false} WholeChunks(cks: seq<Chunk>, cs: nat)
    requires cs > 0 && cks != [] && forall i | 0 <= i < |cks| :: |cks[i]| == cs
    ensures Chunked(Joined(cks), cs) == cks
  {
    var all := Joined(cks);
    if |cks| == 1 {
      assert cks[1..] == [] && all == cks[0] + [] == cks[0];
      assert cks[0] + Zeros(0) == cks[0];
    } else {
      WholeChunks(cks[1..], cs);
      assert all[..cs] == cks[0] && all[cs..] == Joined(cks[1..]);
      JoinedLength(cks[1..], cs);
      assert cs * |cks[1..]| > 0;
    }
  }

  /** The path of a stored entry is the path it was stored under; without metadata the chunks make one
      identifier. */
  lemma PathOfIs(p: seq<Bytes>, cks: seq<Chunk>, cs: nat)
    requires cs > 0 && cks != [] && forall i | 0 <= i < |cks| :: |cks[i]| == cs
    ensures p != [] ==> PathOf(Flat(CutPath(p, cs)), MetaOf(p, cs), cs) == CutPath(p, cs)
    ensures PathOf(cks, [], cs) == [cks]
  {
    SplitExact(p, cs);
    WholeChunks(cks, cs);
  }

  // ---------------------------------------------------------------- orders

  /** The comparison shared by chunks, identifiers and paths: first difference, then length. */
  function Compare<T>(a: seq<T>, b: seq<T>, cmp: (T, T) -> int): int {
    if a == [] then (if b == [] then 0 else -1)
    else if b == [] then 1
    else if cmp(a[0], b[0]) != 0 then cmp(a[0], b[0])
    else Compare(a[1..], b[1..], cmp)
  }

  function ByteCompare(a: Byte, b: Byte): int { a - b }
  function ChunkCompare(a: Chunk, b: Chunk): int { Compare(a, b, ByteCompare) }
  function IdentCompare(a: Ident, b: Ident): int { Compare(a, b, ChunkCompare) }
  function PathCompare(a: Path, b: Path): int { Compare(a, b, IdentCompare) }

  /** The order of the trie. */
  function FlatCompare(a: Path, b: Path): int { IdentCompare(Flat(a), Flat(b)) }

  ghost predicate Order<T(!new)>(cmp: (T, T) -> int) {
    && (forall x, y :: cmp(x, y) == 0 <==> x == y)
    && (forall x, y :: cmp(x, y) < 0 <==> cmp(y, x) > 0)
    && (forall x, y, z :: cmp(x, y) < 0 && cmp(y, z) < 0 ==> cmp(x, z) < 0)
  }

  lemma {:induction false} CompareZero<T(!new)>(a: seq<T>, b: seq<T>, cmp: (T, T) -> int)
    requires Order(cmp)
    ensures Compare(a, b, cmp) == 0 <==> a == b
  {
    if a != [] && b != [] {
      CompareZero(a[1..], b[1..], cmp);
      assert a == [a[0]] + a[1..] && b == [b[0]] + b[1..];
    }
  }

  lemma {:induction false} CompareFlip<T(!new)>(a: seq<T>, b: seq<T>, cmp: (T, T) -> int)
    requires Order(cmp)
    ensures Compare(a, b, cmp) < 0 <==> Compare(b, a, cmp) > 0
  {
    if a != [] && b != [] { CompareFlip(a[1..], b[1..], cmp); }
  }

  lemma {:induction false} CompareTrans<T(!new)>(a: seq<T>, b: seq<T>, c: seq<T>, cmp: (T, T) -> int)
    requires Order(cmp) && Compare(a, b, cmp) < 0 && Compare(b, c, cmp) < 0
    ensures Compare(a, c, cmp) < 0
  {
    if a != [] && b != [] && c != [] {
      if cmp(a[0], b[0]) == 0 && cmp(b[0], c[0]) == 0 { CompareTrans(a[1..], b[1..], c[1..], cmp); }
    }
  }

  lemma LexOrder<T(!new)>(cmp: (T, T) -> int, lex: (seq<T>, seq<T>) -> int)
    requires Order(cmp) && forall a, b :: lex(a, b) == Compare(a, b, cmp)
    ensures Order(lex)
  {
    forall a, b ensures lex(a, b) == 0 <==> a == b { CompareZero(a, b, cmp); }
    forall a, b ensures lex(a, b) < 0 <==> lex(b, a) > 0 { CompareFlip(a, b, cmp); }
    forall a, b, c | lex(a, b) < 0 && lex(b, c) < 0 ensures lex(a, c) < 0 { CompareTrans(a, b, c, cmp); }
  }

  /** All four comparisons are total orders whose zero is equality. */
  lemma Orders()
    ensures Order(ByteCompare) && Order(ChunkCompare) && Order(IdentCompare) && Order(PathCompare)
  {
    LexOrder(ByteCompare, ChunkCompare);
    LexOrder(ChunkCompare, IdentCompare);
    LexOrder(IdentCompare, PathCompare);
  }

  /** a comes before b: they agree up to k, and there a ends or has the smaller element. */
  ghost predicate Precedes<T(!new)>(a: seq<T>, b: seq<T>, before: (T, T) -> bool) {
    exists k :: 0 <= k <= |a| && k < |b| && a[..k] == b[..k] && (k == |a| || before(a[k], b[k]))
  }

  lemma {:induction false} LexIs<T(!new)>(a: seq<T>, b: seq<T>, cmp: (T, T) -> int, before: (T, T) -> bool)
    requires Order(cmp) && forall x, y :: cmp(x, y) < 0 <==> before(x, y)
    ensures Compare(a, b, cmp) < 0 <==> Precedes(a, b, before)
  {
    if a == [] {
      if b != [] { assert a[..0] == b[..0]; }
    } else if b != [] {
      LexIs(a[1..], b[1..], cmp, before);
      LexStep(a, b, before);
    }
  }

  lemma LexStep<T(!new)>(a: seq<T>, b: seq<T>, before: (T, T) -> bool)
    requires a != [] && b != []
    ensures Precedes(a, b, before) <==> before(a[0], b[0]) || (a[0] == b[0] && Precedes(a[1..], b[1..], before))
  {
    if before(a[0], b[0]) { assert a[..0] == b[..0]; }
    if Precedes(a, b, before) && !before(a[0], b[0]) { LexDown(a, b, before); }
    if a[0] == b[0] && Precedes(a[1..], b[1..], before) { LexUp(a, b, before); }
  }

  lemma LexDown<T(!new)>(a: seq<T>, b: seq<T>, before: (T, T) -> bool)
    requires a != [] && b != [] && Precedes(a, b, before) && !before(a[0], b[0])
    ensures a[0] == b[0] && Precedes(a[1..], b[1..], before)
  {
    var k :| 0 <= k <= |a| && k < |b| && a[..k] == b[..k] && (k == |a| || before(a[k], b[k]));
    assert a[..k][0] == a[0] && b[..k][0] == b[0];
    assert a[1..][..k - 1] == a[..k][1..] && b[1..][..k - 1] == b[..k][1..];
    assert k < |a| ==> a[1..][k - 1] == a[k] && b[1..][k - 1] == b[k];
  }

  lemma LexUp<T(!new)>(a: seq<T>, b: seq<T>, before: (T, T) -> bool)
    requires a != [] && b != [] && a[0] == b[0] && Precedes(a[1..], b[1..], before)
    ensures Precedes(a, b, before)
  {
    var k :| 0 <= k <= |a[1..]| && k < |b[1..]| && a[1..][..k] == b[1..][..k] && (k == |a[1..]| || before(a[1..][k], b[1..][k]));
    assert a[..k + 1] == [a[0]] + a[1..][..k] && b[..k + 1] == [b[0]] + b[1..][..k];
    assert k < |a[1..]| ==> a[k + 1] == a[1..][k] && b[k + 1] == b[1..][k];
  }

  /** Byte by byte, chunk by chunk, identifier by identifier. */
  ghost predicate ChunkBefore(a: Chunk, b: Chunk) {
    exists k :: 0 <= k <= |a| && k < |b| && a[..k] == b[..k] && (k == |a| || a[k] < b[k])
  }

  ghost predicate IdentBefore(a: Ident, b: Ident) {
    exists k :: 0 <= k <= |a| && k < |b| && a[..k] == b[..k] && (k == |a| || ChunkBefore(a[k], b[k]))
  }

  ghost predicate PathBefore(a: Path, b: Path) {
    exists k :: 0 <= k <= |a| && k < |b| && a[..k] == b[..k] && (k == |a| || IdentBefore(a[k], b[k]))
  }

  /** The comparisons are those orders: at the first difference the smaller byte, chunk or identifier
      comes first, and what ends first comes first. */
  lemma ChunkOrderIs(a: Chunk, b: Chunk)
    ensures ChunkCompare(a, b) < 0 <==> ChunkBefore(a, b)
  {
    Orders();
    var before := (x: Byte, y: Byte) => x < y;
    LexIs(a, b, ByteCompare, before);
    if k :| 0 <= k <= |a| && k < |b| && a[..k] == b[..k] && (k == |a| || a[k] < b[k]) { assert k == |a| || before(a[k], b[k]); }
  }

  lemma IdentOrderIs(a: Ident, b: Ident)
    ensures IdentCompare(a, b) < 0 <==> IdentBefore(a, b)
  {
    Orders();
    var before := (x: Chunk, y: Chunk) => ChunkCompare(x, y) < 0;
    LexIs(a, b, ChunkCompare, before);
    forall x, y ensures ChunkCompare(x, y) < 0 <==> ChunkBefore(x, y) { ChunkOrderIs(x, y); }
    if k :| 0 <= k <= |a| && k < |b| && a[..k] == b[..k] && (k == |a| || ChunkBefore(a[k], b[k])) { assert k == |a| || before(a[k], b[k]); }
  }

  lemma PathOrderIs(a: Path, b: Path)
    ensures PathCompare(a, b) < 0 <==> PathBefore(a, b)
  {
    Orders();
    var before := (x: Ident, y: Ident) => IdentCompare(x, y) < 0;
    LexIs(a, b, IdentCompare, before);
    forall x, y ensures IdentCompare(x, y) < 0 <==> IdentBefore(x, y) { IdentOrderIs(x, y); }
    if k :| 0 <= k <= |a| && k < |b| && a[..k] == b[..k] && (k == |a| || IdentBefore(a[k], b[k])) { assert k == |a| || before(a[k], b[k]); }
  }

  /** An identifier never sorts after a longer one that begins with it, padding or not. */
  lemma PrefixSortsFirst(a: Bytes, b: Bytes, cs: nat)
    requires cs > 0 && a <= b
    ensures IdentCompare(Chunked(a, cs), Chunked(b, cs)) <= 0
    ensures IdentBefore(Chunked(a, cs), Chunked(b, cs)) || Chunked(a, cs) == Chunked(b, cs)
  {
    PrefixOrdered(a, b, cs);
    IdentOrderIs(Chunked(a, cs), Chunked(b, cs));
    Orders();
  }

  lemma {:induction false} PrefixOrdered(a: Bytes, b: Bytes, cs: nat)
    requires cs > 0 && a <= b
    ensures IdentCompare(Chunked(a, cs), Chunked(b, cs)) <= 0
    decreases |a|
  {
    Orders();
    if |a| > cs {
      assert a[..cs] == b[..cs] && a[cs..] <= b[cs..];
      PrefixOrdered(a[cs..], b[cs..], cs);
      assert Chunked(a, cs)[1..] == Chunked(a[cs..], cs) && Chunked(b, cs)[1..] == Chunked(b[cs..], cs);
    } else {
      var x, y := a + Zeros(cs - |a|), Chunked(b, cs)[0];
      assert y == if |b| <= cs then b + Zeros(cs - |b|) else b[..cs];
      PaddedFirst(a, y, cs);
      assert Chunked(a, cs) == [x] && Chunked(a, cs)[1..] == [];
      if x == y { assert Chunked(b, cs)[1..] == [] || Compare([], Chunked(b, cs)[1..], ChunkCompare) == -1; }
    }
  }

  lemma {:induction false} PaddedFirst(a: Bytes, y: Bytes, cs: nat)
    requires |a| <= cs == |y| && a <= y
    ensures ChunkCompare(a + Zeros(cs - |a|), y) <= 0
    decreases cs
  {
    hide ChunkCompare;
    var x := a + Zeros(cs - |a|);
    if cs == 0 {
      NothingCompares(x, y);
    } else {
      if a == [] {
        assert x[1..] == [] + Zeros(cs - 1) && x[0] == 0;
        PaddedFirst([], y[1..], cs - 1);
      } else {
        assert x[1..] == a[1..] + Zeros(cs - 1 - |a[1..]|) && x[0] == y[0];
        PaddedFirst(a[1..], y[1..], cs - 1);
      }
      NotAfter(x, y);
    }
  }

  lemma NothingCompares(x: Bytes, y: Bytes)
    requires x == [] == y
    ensures ChunkCompare(x, y) == 0
  {
  }

  lemma NotAfter(x: Bytes, y: Bytes)
    requires x != [] && y != [] && x[0] <= y[0] && ChunkCompare(x[1..], y[1..]) <= 0
    ensures ChunkCompare(x, y) <= 0
  {
  }

  /** path_compare and identifier_compare: the loop over the common length. */
  method CompareLoop<T(==)>(a: seq<T>, b: seq<T>, cmp: (T, T) -> int) returns (c: int)
    ensures c == Compare(a, b, cmp)
  {
    var n := if |a| < |b| then |a| else |b|;
    var i := 0;
    while i < n
      invariant 0 <= i <= n
      invariant Compare(a, b, cmp) == Compare(a[i..], b[i..], cmp)
    {
      if cmp(a[i], b[i]) != 0 {
        return cmp(a[i], b[i]);
      }
      assert a[i..][1..] == a[i + 1..] && b[i..][1..] == b[i + 1..];
      i := i + 1;
    }
    return if |a| < |b| then -1 else if |a| > |b| then 1 else 0;
  }

  // ---------------------------------------------------------------- the two orders of paths

  /** At the first component that differs, one identifier's chunks begin the other's. */
  predicate Clash(p: Path, q: Path) {
    p != [] && q != [] &&
    if p[0] == q[0] then Clash(p[1..], q[1..]) else p[0] < q[0] || q[0] < p[0]
  }

  /** Every identifier has a chunk, as identifier_create makes them. */
  predicate Solid(p: Path) {
    forall i | 0 <= i < |p| :: p[i] != []
  }

  lemma {:induction false} SkipCommon(a: Ident, x: Ident, y: Ident)
    ensures IdentCompare(a + x, a + y) == IdentCompare(x, y)
  {
    if a == [] {
      assert a + x == x && a + y == y;
    } else {
      Orders();
      assert (a + x)[1..] == a[1..] + x && (a + y)[1..] == a[1..] + y;
      SkipCommon(a[1..], x, y);
    }
  }

  lemma {:induction false} Decided(a: Ident, b: Ident, x: Ident, y: Ident)
    requires !(a <= b) && !(b <= a)
    ensures IdentCompare(a + x, b + y) == IdentCompare(a, b) != 0
  {
    Orders();
    assert (a + x)[1..] == a[1..] + x && (b + y)[1..] == b[1..] + y;
    if a[0] == b[0] {
      assert a == [a[0]] + a[1..] && b == [b[0]] + b[1..];
      Decided(a[1..], b[1..], x, y);
    }
  }

  lemma FlatNonempty(p: Path)
    requires Solid(p) && p != []
    ensures Flat(p) != []
  {
  }

  lemma {:induction false} FlatPush(p: Path, i: nat)
    requires i < |p|
    ensures Flat(p[..i + 1]) == Flat(p[..i]) + p[i]
  {
    if i == 0 {
      assert p[..1][1..] == [];
    } else {
      assert p[..i + 1][1..] == p[1..][..i] && p[..i][1..] == p[1..][..i - 1];
      FlatPush(p[1..], i - 1);
    }
  }

  lemma {:induction false} FlatAppend(p: Path, q: Path)
    ensures Flat(p + q) == Flat(p) + Flat(q)
  {
    if p == [] {
      assert p + q == q;
    } else {
      assert (p + q)[1..] == p[1..] + q;
      FlatAppend(p[1..], q);
    }
  }

  /** Chunk j of component i within the flattened path. */
  lemma FlatIndex(p: Path, i: nat, j: nat)
    requires i < |p| && j < |p[i]|
    ensures |Flat(p[..i])| + j < |Flat(p)| && Flat(p)[|Flat(p[..i])| + j] == p[i][j]
    ensures i == |p| - 1 && j == |p[i]| - 1 ==> |Flat(p[..i])| + j + 1 == |Flat(p)|
    ensures Solid(p) && !(i == |p| - 1 && j == |p[i]| - 1) ==> |Flat(p[..i])| + j + 1 < |Flat(p)|
  {
    FlatPush(p, i);
    assert p == p[..i + 1] + p[i + 1..];
    FlatAppend(p[..i + 1], p[i + 1..]);
    if Solid(p) && i + 1 < |p| { FlatNonempty(p[i + 1..]); }
  }

  /** Without a clash path_compare and the trie order give the same answer. */
  lemma {:induction false} OrdersAgree(p: Path, q: Path)
    requires Solid(p) && Solid(q) && !Clash(p, q)
    ensures FlatCompare(p, q) == PathCompare(p, q)
  {
    if p == [] || q == [] {
      if p != [] { FlatNonempty(p); }
      if q != [] { FlatNonempty(q); }
    } else if p[0] == q[0] {
      SkipCommon(p[0], Flat(p[1..]), Flat(q[1..]));
      OrdersAgree(p[1..], q[1..]);
      Orders();
    } else {
      Decided(p[0], q[0], Flat(p[1..]), Flat(q[1..]));
    }
  }

  /** "a", "c" comes before "ab" in path order, after it in the trie. */
  function TwoParts(): Path { [[[1]], [[3]]] }
  function OnePart(): Path { [[[1], [2]]] }

  lemma ClashingPair()
    ensures Solid(TwoParts()) && Solid(OnePart()) && Clash(TwoParts(), OnePart())
    ensures Flat(TwoParts()) == [[1], [3]] && Flat(OnePart()) == [[1], [2]]
    ensures PathCompare(TwoParts(), OnePart()) < 0 && FlatCompare(TwoParts(), OnePart()) > 0
  {
    var a, b, c: Chunk := [1], [2], [3];
    var ia, ib, ic, ab, ac: Ident := [a], [b], [c], [a, b], [a, c];
    var p, q: Path := [ia, ic], [ab];
    var pt, none: Path := [ic], [];
    assert p[1..] == pt && pt[1..] == none && q[1..] == none;
    assert Flat(none) == [] && Flat(pt) == ic && Flat(q) == ab;
    assert ia + ic == ac && Flat(p) == ac;
    assert ia < ab && Clash(p, q);
    assert a[1..] == [] && b[1..] == [] && c[1..] == [];
    assert ChunkCompare(c, b) == 1 && ChunkCompare(a, a) == 0;
    assert ac[1..] == ic && ab[1..] == ib && ia[1..] == [];
    assert IdentCompare(ia[1..], ab[1..]) == -1 && IdentCompare(ic, ib) == 1;
    assert IdentCompare(ia, ab) == -1 && IdentCompare(ac, ab) == 1;
    assert PathCompare(p, q) < 0 && FlatCompare(p, q) > 0;
  }

  /** With a clash the orders can differ, and two paths can share one place: "a", "b" and "ab". */
  lemma ClashExample()
    ensures exists p, q :: Solid(p) && Solid(q) && Clash(p, q) && PathCompare(p, q) < 0 && FlatCompare(p, q) > 0
    ensures exists p, q :: Solid(p) && Solid(q) && Clash(p, q) && p != q && Flat(p) == Flat(q)
  {
    ClashingPair();
    var ia, ib, ab: Ident := [[1]], [[2]], [[1], [2]];
    var q, r: Path := [ab], [ia, ib];
    var rt, none: Path := [ib], [];
    assert r[1..] == rt && rt[1..] == none;
    assert Flat(none) == [] && Flat(rt) == ib && ia + ib == ab && Flat(r) == ab;
    assert q == OnePart() && ia < ab && Clash(r, q) && r != q;
  }
}
