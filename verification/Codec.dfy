/**
 The log format: put and delete payloads (encode_put_entry_binary, encode_delete_entry_binary and
 their decoders), the 33-byte frame header, and the reader that stops at the first frame that is
 not wholly there (read_wal_file).
 */
module Codec {
  import opened Common

  // ---------------------------------------------------------------- big-endian fields

  const MAGIC: Byte := 0xB1

  function Pow256(w: nat): (p: nat)
    ensures p > 0
  {
    if w == 0 then 1 else 256 * Pow256(w - 1)
  }

  lemma Widths()
    ensures Pow256(2) == U16_LIMIT && Pow256(4) == U32_LIMIT && Pow256(8) == U64_LIMIT
  {
    assert Pow256(3) == 256 * Pow256(2) && Pow256(4) == 256 * Pow256(3) && Pow256(5) == 256 * Pow256(4);
    assert Pow256(6) == 256 * Pow256(5) && Pow256(7) == 256 * Pow256(6) && Pow256(8) == 256 * Pow256(7);
  }

  /** The low w bytes of n, most significant first. */
  function Be(n: nat, w: nat): (b: Bytes)
    ensures |b| == w
  {
    if w == 0 then [] else Be(n / 256, w - 1) + [n % 256]
  }

  function ReadBe(b: Bytes): nat {
    if b == [] then 0 else ReadBe(b[..|b| - 1]) * 256 + b[|b| - 1]
  }

  lemma BeLength(n: nat, w: nat)
    ensures |Be(n, w)| == w
  {
  }

  lemma {:induction false} ReadWritten(n: nat, w: nat)
    requires n < Pow256(w)
    ensures ReadBe(Be(n, w)) == n
  {
    if w > 0 {
      ReadWritten(n / 256, w - 1);
      var b := Be(n, w);
      assert b[..|b| - 1] == Be(n / 256, w - 1);
    }
  }

  /** n stands in the w bytes from `at` on, the most significant byte first. */
  ghost predicate BeAt(b: Bytes, at: nat, w: nat, n: nat) {
    at + w <= |b| && var field := b[at..at + w]; forall i | 0 <= i < w :: field[i] == n / Pow256(w - 1 - i) % 256
  }

  lemma DivTwice(n: nat, p: nat)
    requires p > 0
    ensures n / 256 / p == n / (256 * p)
  {
    var q := n / 256 / p;
    assert 256 * (p * q) <= n < 256 * (p * q + p);
    assert 256 * (p * q) == 256 * p * q && 256 * (p * q + p) == 256 * p * (q + 1);
    QuotientIs(n, 256 * p, q);
  }

  lemma Monotone(d: nat, a: nat, b: nat)
    requires a <= b
    ensures d * a <= d * b
  {
    assert d * b == d * a + d * (b - a);
  }

  lemma QuotientIs(n: nat, d: nat, q: nat)
    requires d > 0 && d * q <= n < d * (q + 1)
    ensures n / d == q
  {
    var k := n / d;
    assert d * k <= n < d * (k + 1);
    if k < q { Monotone(d, k + 1, q); }
    if q < k { Monotone(d, q + 1, k); }
  }

  lemma {:induction false} BeDigits(n: nat, w: nat)
    ensures BeAt(Be(n, w), 0, w, n)
  {
    if w > 0 {
      var m, b := n / 256, Be(n, w);
      BeDigits(m, w - 1);
      var shorter := Be(m, w - 1);
      assert shorter[0..0 + (w - 1)] == shorter && b[0..0 + w] == b;
      forall i | 0 <= i < w ensures b[i] == n / Pow256(w - 1 - i) % 256 {
        if i < w - 1 {
          assert b[i] == shorter[i];
          DivTwice(n, Pow256(w - 2 - i));
        }
      }
    }
  }

  /** A field written into a longer run of bytes. */
  lemma BeWritten(b: Bytes, at: nat, w: nat, n: nat)
    requires at + w <= |b| && b[at..at + w] == Be(n, w)
    ensures BeAt(b, at, w, n)
  {
    BeDigits(n, w);
    assert Be(n, w)[0..0 + w] == Be(n, w);
  }

  /** Fields of 2, 4 and 8 bytes. */
  lemma Fields(n: nat)
    ensures n < U16_LIMIT ==> ReadBe(Be(n, 2)) == n
    ensures n < U32_LIMIT ==> ReadBe(Be(n, 4)) == n
    ensures n < U64_LIMIT ==> ReadBe(Be(n, 8)) == n
  {
    Widths();
    hide Pow256, Be, ReadBe;
    if n < U16_LIMIT { ReadWritten(n, 2); }
    if n < U32_LIMIT { ReadWritten(n, 4); }
    if n < U64_LIMIT { ReadWritten(n, 8); }
  }

  // ---------------------------------------------------------------- payloads

  datatype Op = Put(path: seq<Bytes>, value: Bytes) | Delete(path: seq<Bytes>)

  /** What decoding returns: a put whose value has no bytes comes back without one. */
  datatype Entry = PutEntry(path: seq<Bytes>, value: Option<Bytes>) | DeleteEntry(path: seq<Bytes>)

  function AsRead(op: Op): Entry {
    match op
    case Put(p, v) => PutEntry(p, if v == [] then None else Some(v))
    case Delete(p) => DeleteEntry(p)
  }

  function Total(path: seq<Bytes>): nat {
    if path == [] then 0 else |path[0]| + Total(path[1..])
  }

  /** The field widths of the format hold the lengths. */
  ghost predicate Fits(op: Op) {
    && |op.path| < U16_LIMIT && (forall i | 0 <= i < |op.path| :: |op.path[i]| < U16_LIMIT)
    && Total(op.path) < U32_LIMIT && (op.Put? ==> |op.value| < U32_LIMIT)
  }

  function IdBytes(id: Bytes): Bytes { Be(|id|, 2) + id }

  function IdsBytes(path: seq<Bytes>): Bytes {
    if path == [] then [] else IdBytes(path[0]) + IdsBytes(path[1..])
  }

  function HeadBytes(path: seq<Bytes>): (b: Bytes)
    ensures |b| == 7
  {
    [MAGIC] + Be(|path|, 2) + Be(Total(path), 4)
  }

  function PathBytes(path: seq<Bytes>): Bytes { HeadBytes(path) + IdsBytes(path) }

  function ValueBytes(v: Bytes): Bytes { Be(|v|, 4) + v }

  function Payload(op: Op): Bytes {
    match op
    case Put(p, v) => PathBytes(p) + ValueBytes(v)
    case Delete(p) => PathBytes(p)
  }

  lemma {:induction false} IdsPush(path: seq<Bytes>, i: nat)
    requires i < |path|
    ensures IdsBytes(path[..i + 1]) == IdsBytes(path[..i]) + IdBytes(path[i])
    ensures Total(path[..i + 1]) == Total(path[..i]) + |path[i]|
  {
    if i == 0 {
      assert path[..1][1..] == [];
    } else {
      assert path[..i + 1][1..] == path[1..][..i] && path[..i][1..] == path[1..][..i - 1];
      IdsPush(path[1..], i - 1);
    }
  }

  // ---------------------------------------------------------------- the payload byte by byte

  /** Where identifier j begins. */
  ghost function IdAt(path: seq<Bytes>, j: nat): nat
    requires j <= |path|
  {
    7 + 2 * j + Total(path[..j])
  }

  /** b is the payload of op: 0xB1, the number of identifiers in 2 bytes, their total length in 4, each
      identifier behind its length in 2 bytes, and for a put the value behind its length in 4 bytes. */
  ghost predicate PayloadIs(op: Op, b: Bytes) {
    var p := op.path;
    var end := IdAt(p, |p|);
    && 7 <= |b| && b[0] == 0xB1 && BeAt(b, 1, 2, |p|) && BeAt(b, 3, 4, Total(p))
    && (forall j | 0 <= j < |p| ::
          && IdAt(p, j) + 2 + |p[j]| <= |b|
          && BeAt(b, IdAt(p, j), 2, |p[j]|)
          && b[IdAt(p, j) + 2..IdAt(p, j) + 2 + |p[j]|] == p[j])
    && match op
       case Put(_, v) => |b| == end + 4 + |v| && BeAt(b, end, 4, |v|) && b[end + 4..] == v
       case Delete(_) => |b| == end
  }

  lemma {:induction false} IdsLength(path: seq<Bytes>)
    ensures |IdsBytes(path)| == 2 * |path| + Total(path)
  {
    if path != [] { IdsLength(path[1..]); }
  }

  lemma {:induction false} IdsJoin(a: seq<Bytes>, b: seq<Bytes>)
    ensures IdsBytes(a + b) == IdsBytes(a) + IdsBytes(b)
  {
    if a == [] {
      assert a + b == b;
    } else {
      assert (a + b)[1..] == a[1..] + b;
      IdsJoin(a[1..], b);
    }
  }

  lemma IdWritten(path: seq<Bytes>, j: nat, b: Bytes)
    requires j < |path| && PathBytes(path) <= b
    ensures IdAt(path, j) + 2 + |path[j]| <= |b|
    ensures BeAt(b, IdAt(path, j), 2, |path[j]|) && b[IdAt(path, j) + 2..IdAt(path, j) + 2 + |path[j]|] == path[j]
  {
    hide BeAt, IdsBytes, Total;
    var front, n, id, rest, at := HeadBytes(path) + IdsBytes(path[..j]), Be(|path[j]|, 2), path[j], IdsBytes(path[j + 1..]), IdAt(path, j);
    assert path == path[..j + 1] + path[j + 1..];
    IdsJoin(path[..j + 1], path[j + 1..]);
    IdsPush(path, j);
    IdsLength(path[..j]);
    assert |front| == at;
    var whole := front + n + id + rest;
    assert PathBytes(path) == whole;
    assert whole[at..at + 2] == n && whole[at + 2..at + 2 + |id|] == id;
    SliceOfPrefix(whole, b, at, at + 2);
    SliceOfPrefix(whole, b, at + 2, at + 2 + |id|);
    BeWritten(b, at, 2, |id|);
  }

  lemma SliceOfPrefix(h: Bytes, b: Bytes, i: nat, j: nat)
    requires h <= b && i <= j <= |h|
    ensures b[i..j] == h[i..j]
  {
    forall k | 0 <= k < j - i ensures b[i..j][k] == h[i..j][k] { assert b[i + k] == h[i + k]; }
  }

  lemma HeadParts(path: seq<Bytes>)
    ensures HeadBytes(path)[0] == 0xB1 && HeadBytes(path)[1..3] == Be(|path|, 2) && HeadBytes(path)[3..7] == Be(Total(path), 4)
  {
    hide Be, Total;
    BeLength(|path|, 2);
    BeLength(Total(path), 4);
  }

  lemma HeadWritten(path: seq<Bytes>, b: Bytes)
    requires HeadBytes(path) <= b
    ensures b[0] == 0xB1 && BeAt(b, 1, 2, |path|) && BeAt(b, 3, 4, Total(path))
  {
    hide BeAt, Be, Total, HeadBytes;
    HeadParts(path);
    SliceOfPrefix(HeadBytes(path), b, 1, 3);
    SliceOfPrefix(HeadBytes(path), b, 3, 7);
    BeWritten(b, 1, 2, |path|);
    BeWritten(b, 3, 4, Total(path));
  }

  /** Every byte of a payload. */
  lemma PayloadLayout(op: Op)
    ensures PayloadIs(op, Payload(op))
  {
    hide BeAt, IdsBytes, Total, Be;
    var b, p := Payload(op), op.path;
    HeadWritten(p, b);
    forall j | 0 <= j < |p|
      ensures IdAt(p, j) + 2 + |p[j]| <= |b| && BeAt(b, IdAt(p, j), 2, |p[j]|) && b[IdAt(p, j) + 2..IdAt(p, j) + 2 + |p[j]|] == p[j]
    {
      IdWritten(p, j, b);
    }
    IdsLength(p);
    assert p[..|p|] == p;
    if op.Put? {
      var end := IdAt(p, |p|);
      BeLength(|op.value|, 4);
      assert b[end..end + 4] == Be(|op.value|, 4);
      BeWritten(b, end, 4, |op.value|);
    }
  }

  // ---------------------------------------------------------------- encoding

  /** The two loops both encoders share: sum up the lengths, then write the identifiers. */
  method EncodePath(path: seq<Bytes>) returns (b: Bytes)
    ensures b == PathBytes(path)
  {
    var total := 0;
    var i := 0;
    while i < |path|
      invariant 0 <= i <= |path| && total == Total(path[..i])
    {
      IdsPush(path, i);
      total := total + |path[i]|;
      i := i + 1;
    }
    assert path[..i] == path;
    b := [MAGIC] + Be(|path|, 2) + Be(total, 4);
    i := 0;
    while i < |path|
      invariant 0 <= i <= |path| && b == HeadBytes(path) + IdsBytes(path[..i])
    {
      IdsPush(path, i);
      b := b + Be(|path[i]|, 2) + path[i];
      i := i + 1;
    }
    assert path[..i] == path;
  }

  /** encode_put_entry_binary and encode_delete_entry_binary. */
  method Encode(op: Op) returns (b: Bytes)
    ensures b == Payload(op) && PayloadIs(op, b)
  {
    PayloadLayout(op);
    hide PayloadIs;
    b := EncodePath(op.path);
    if op.Put? { b := b + Be(|op.value|, 4) + op.value; }
  }

  // ---------------------------------------------------------------- decoding

  /** n identifiers from the front, and what follows them. */
  function TakeIds(b: Bytes, n: nat): Option<(seq<Bytes>, Bytes)>
    decreases n
  {
    if n == 0 then Some(([], b))
    else if |b| < 2 || |b| < 2 + ReadBe(b[..2]) then None
    else
      var len := ReadBe(b[..2]);
      match TakeIds(b[2 + len..], n - 1)
      case None => None
      case Some((ids, rest)) => Some(([b[2..2 + len]] + ids, rest))
  }

  function DecodedPath(b: Bytes): Option<(seq<Bytes>, Bytes)> {
    if |b| < 7 || b[0] != MAGIC then None
    else
      match TakeIds(b[7..], ReadBe(b[1..3]))
      case None => None
      case Some((ids, rest)) => if Total(ids) == ReadBe(b[3..7]) then Some((ids, rest)) else None
  }

  function DecodedValue(b: Bytes): Option<Option<Bytes>> {
    if |b| < 4 then None
    else
      var len := ReadBe(b[..4]);
      if len == 0 then Some(None) else if |b| < 4 + len then None else Some(Some(b[4..4 + len]))
  }

  function Decoded(isPut: bool, b: Bytes): Option<Entry> {
    match DecodedPath(b)
    case None => None
    case Some((ids, rest)) =>
      if !isPut then Some(DeleteEntry(ids))
      else match DecodedValue(rest)
           case None => None
           case Some(v) => Some(PutEntry(ids, v))
  }

  /** The loop over the identifiers. */
  method DecodeIds(data: Bytes, start: nat, n: nat) returns (ok: bool, ids: seq<Bytes>, pos: nat, sum: nat)
    requires start <= |data|
    ensures pos <= |data| && sum == Total(ids)
    ensures TakeIds(data[start..], n) == if ok then Some((ids, data[pos..])) else None
  {
    hide ReadBe, Total, TakeIds;
    ok, ids, pos, sum := true, [], start, 0;
    TotalNone();
    var i := 0;
    PrependNone(TakeIds(data[start..], n));
    while ok && i < n
      invariant 0 <= i <= n && start <= pos <= |data| && sum == Total(ids)
      invariant TakeIds(data[start..], n) == if ok then Prepend(ids, TakeIds(data[pos..], n - i)) else None
    {
      ghost var rest := data[pos..];
      TakeStep(rest, n - i);
      if pos + 2 > |data| {
        ok := false;
      } else {
        var len := ReadBe(data[pos..pos + 2]);
        assert rest[..2] == data[pos..pos + 2];
        if pos + 2 + len > |data| {
          ok := false;
        } else {
          var id := data[pos + 2..pos + 2 + len];
          assert rest[2..2 + len] == id && rest[2 + len..] == data[pos + 2 + len..];
          TotalPush(ids, id);
          PrependTwice(ids, id, TakeIds(data[pos + 2 + len..], n - i - 1));
          ids := ids + [id];
          sum := sum + len;
          pos := pos + 2 + len;
          i := i + 1;
        }
      }
    }
    TakeNone(data[pos..]);
    assert ids + [] == ids;
  }

  lemma TakeStep(b: Bytes, n: nat)
    requires n > 0
    ensures TakeIds(b, n) ==
              if |b| < 2 || |b| < 2 + ReadBe(b[..2]) then None
              else Prepend([b[2..2 + ReadBe(b[..2])]], TakeIds(b[2 + ReadBe(b[..2])..], n - 1))
  {
  }

  lemma TakeNone(b: Bytes)
    ensures TakeIds(b, 0) == Some(([], b))
  {
  }

  lemma TotalNone()
    ensures Total([]) == 0
  {
  }

  /** decode_put_entry_binary and decode_delete_entry_binary: one position moves through the data. */
  method Decode(isPut: bool, data: Bytes) returns (e: Option<Entry>)
    ensures e == Decoded(isPut, data)
  {
    if |data| < 1 || data[0] != MAGIC {
      return None;
    }
    if |data| < 3 || |data| < 7 {
      return None;
    }
    hide TakeIds, ReadBe, Total;
    var ok, ids, pos, sum := DecodeIds(data, 7, ReadBe(data[1..3]));
    if !ok || sum != ReadBe(data[3..7]) {
      return None;
    }
    if !isPut {
      return Some(DeleteEntry(ids));
    }
    var rest := data[pos..];
    if |rest| < 4 {
      return None;
    }
    var len := ReadBe(rest[..4]);
    if len == 0 {
      return Some(PutEntry(ids, None));
    }
    if |rest| < 4 + len {
      return None;
    }
    return Some(PutEntry(ids, Some(rest[4..4 + len])));
  }

  lemma PrependNone(r: Option<(seq<Bytes>, Bytes)>)
    ensures Prepend([], r) == r
  {
    if r.Some? { assert [] + r.value.0 == r.value.0; }
  }

  function Prepend(ids: seq<Bytes>, r: Option<(seq<Bytes>, Bytes)>): Option<(seq<Bytes>, Bytes)> {
    match r
    case None => None
    case Some((more, rest)) => Some((ids + more, rest))
  }

  lemma PrependTwice(ids: seq<Bytes>, id: Bytes, r: Option<(seq<Bytes>, Bytes)>)
    ensures Prepend(ids, Prepend([id], r)) == Prepend(ids + [id], r)
  {
    if r.Some? { assert ids + ([id] + r.value.0) == (ids + [id]) + r.value.0; }
  }

  lemma {:induction false} TotalPush(ids: seq<Bytes>, id: Bytes)
    ensures Total(ids + [id]) == Total(ids) + |id|
  {
    if ids == [] {
      assert ([] + [id])[1..] == [];
    } else {
      assert (ids + [id])[1..] == ids[1..] + [id];
      TotalPush(ids[1..], id);
    }
  }

  // ---------------------------------------------------------------- round trip of payloads

  lemma {:induction false} TakeWritten(path: seq<Bytes>, rest: Bytes)
    requires forall i | 0 <= i < |path| :: |path[i]| < U16_LIMIT
    ensures TakeIds(IdsBytes(path) + rest, |path|) == Some((path, rest))
  {
    hide IdsBytes, Be, ReadBe, TakeIds;
    IdsStep(path);
    if path == [] {
      assert IdsBytes(path) + rest == rest;
      TakeNone(rest);
    } else {
      var id, more := path[0], IdsBytes(path[1..]) + rest;
      TakeWritten(path[1..], rest);
      var b := Be(|id|, 2) + id + more;
      assert IdsBytes(path) + rest == b;
      TakeOne(id, more);
      TakeStep(b, |path|);
      assert [path[0]] + path[1..] == path;
    }
  }

  lemma IdsStep(path: seq<Bytes>)
    ensures IdsBytes(path) == if path == [] then [] else Be(|path[0]|, 2) + path[0] + IdsBytes(path[1..])
  {
  }

  lemma TakeOne(id: Bytes, more: Bytes)
    requires |id| < U16_LIMIT
    ensures var b := Be(|id|, 2) + id + more;
            |b| >= 2 + |id| && ReadBe(b[..2]) == |id| && b[2..2 + |id|] == id && b[2 + |id|..] == more
  {
    hide Be, ReadBe;
    Fields(|id|);
    BeLength(|id|, 2);
    var b := Be(|id|, 2) + id + more;
    assert b[..2] == Be(|id|, 2);
  }

  lemma PathRoundTrip(path: seq<Bytes>, rest: Bytes)
    requires |path| < U16_LIMIT && (forall i | 0 <= i < |path| :: |path[i]| < U16_LIMIT) && Total(path) < U32_LIMIT
    ensures DecodedPath(PathBytes(path) + rest) == Some((path, rest))
  {
    hide Be, ReadBe, IdsBytes, Total, TakeIds;
    var n, t := Be(|path|, 2), Be(Total(path), 4);
    Fields(|path|);
    Fields(Total(path));
    BeLength(|path|, 2);
    BeLength(Total(path), 4);
    TakeWritten(path, rest);
    var b := [MAGIC] + n + t + IdsBytes(path) + rest;
    assert PathBytes(path) + rest == b;
    assert b[0] == MAGIC && b[1..3] == n && b[3..7] == t && b[7..] == IdsBytes(path) + rest;
  }

  /** Every operation within the field limits decodes to itself, an empty value to no value. */
  lemma PayloadRoundTrip(op: Op)
    requires Fits(op)
    ensures Decoded(op.Put?, Payload(op)) == Some(AsRead(op))
  {
    if op.Put? {
      PathRoundTrip(op.path, ValueBytes(op.value));
      Fields(|op.value|);
      var b := ValueBytes(op.value);
      assert b[..4] == Be(|op.value|, 4) && b[4..] == op.value && b[4..4 + |op.value|] == op.value;
    } else {
      PathRoundTrip(op.path, []);
      assert PathBytes(op.path) + [] == PathBytes(op.path);
    }
  }

  // ---------------------------------------------------------------- what is accepted

  /** Read and written again, bytes are the same. */
  lemma {:induction false} WrittenRead(b: Bytes)
    ensures Be(ReadBe(b), |b|) == b && ReadBe(b) < Pow256(|b|)
  {
    if b != [] {
      var rest, last := b[..|b| - 1], b[|b| - 1];
      WrittenRead(rest);
      assert (ReadBe(rest) * 256 + last) / 256 == ReadBe(rest) && (ReadBe(rest) * 256 + last) % 256 == last;
      assert b == rest + [last];
    }
  }

  /** Fields of 2, 4 and 8 bytes. */
  lemma FieldRead(b: Bytes)
    ensures Be(ReadBe(b), |b|) == b
    ensures (|b| == 2 ==> ReadBe(b) < U16_LIMIT) && (|b| == 4 ==> ReadBe(b) < U32_LIMIT) && (|b| == 8 ==> ReadBe(b) < U64_LIMIT)
  {
    hide Be, ReadBe, Pow256;
    WrittenRead(b);
    Widths();
  }

  ghost predicate IdsFit(path: seq<Bytes>) {
    forall i | 0 <= i < |path| :: |path[i]| < U16_LIMIT
  }

  lemma {:induction false} TakenIs(b: Bytes, n: nat)
    ensures var r := TakeIds(b, n);
            r.Some? ==> var (ids, rest) := r.value; |ids| == n && IdsFit(ids) && b == IdsBytes(ids) + rest
    decreases n
  {
    if n > 0 && |b| >= 2 && |b| >= 2 + ReadBe(b[..2]) {
      var len := ReadBe(b[..2]);
      FieldRead(b[..2]);
      TakenIs(b[2 + len..], n - 1);
      var r := TakeIds(b[2 + len..], n - 1);
      if r.Some? {
        var (ids, rest) := r.value;
        var id := b[2..2 + len];
        TakenJoin(b, id, ids, rest);
      }
    }
  }

  lemma TakenJoin(b: Bytes, id: Bytes, ids: seq<Bytes>, rest: Bytes)
    requires |b| >= 2 + |id| && b[..2] == Be(|id|, 2) && b[2..2 + |id|] == id && b[2 + |id|..] == IdsBytes(ids) + rest
    ensures b == IdsBytes([id] + ids) + rest
  {
    assert ([id] + ids)[1..] == ids;
    hide Be;
    assert b == b[..2] + b[2..2 + |id|] + b[2 + |id|..];
    assert Be(|id|, 2) + id + (IdsBytes(ids) + rest) == Be(|id|, 2) + id + IdsBytes(ids) + rest;
  }

  ghost predicate PathFits(path: seq<Bytes>) {
    |path| < U16_LIMIT && IdsFit(path) && Total(path) < U32_LIMIT
  }

  /** A path is read from the front exactly when its encoding, within the field limits, is there. */
  lemma DecodedPathIff(b: Bytes, path: seq<Bytes>, rest: Bytes)
    ensures DecodedPath(b) == Some((path, rest)) <==> PathFits(path) && b == PathBytes(path) + rest
  {
    hide Be, ReadBe, IdsBytes, Total, TakeIds;
    if PathFits(path) && b == PathBytes(path) + rest { PathRoundTrip(path, rest); }
    if DecodedPath(b) == Some((path, rest)) {
      TakenIs(b[7..], ReadBe(b[1..3]));
      FieldRead(b[1..3]);
      FieldRead(b[3..7]);
      assert b == [b[0]] + b[1..3] + b[3..7] + b[7..];
      assert HeadBytes(path) + (IdsBytes(path) + rest) == HeadBytes(path) + IdsBytes(path) + rest;
    }
  }

  /** The bytes of a value as an entry has it; no value is written as an empty one. */
  ghost function StoredValue(v: Option<Bytes>): Bytes { ValueBytes(if v.Some? then v.value else []) }

  ghost predicate ValueFits(v: Option<Bytes>) {
    v != Some([]) && (v.Some? ==> |v.value| < U32_LIMIT)
  }

  lemma ValueRead(b: Bytes, v: Option<Bytes>)
    requires ValueFits(v) && StoredValue(v) <= b
    ensures DecodedValue(b) == Some(v)
  {
    hide Be, ReadBe;
    var value := if v.Some? then v.value else [];
    BeLength(|value|, 4);
    Fields(|value|);
    var all := Be(|value|, 4) + value;
    assert b[..4] == all[..4] == Be(|value|, 4) && b[4..4 + |value|] == all[4..] == value;
  }

  lemma ValueWasThere(b: Bytes, v: Option<Bytes>)
    requires DecodedValue(b) == Some(v)
    ensures ValueFits(v) && StoredValue(v) <= b
  {
    hide Be, ReadBe;
    FieldRead(b[..4]);
    var n := if v.Some? then |v.value| else 0;
    assert b[..4 + n] == b[..4] + b[4..4 + n];
  }

  lemma DecodedValueIff(b: Bytes, v: Option<Bytes>)
    ensures DecodedValue(b) == Some(v) <==> ValueFits(v) && StoredValue(v) <= b
  {
    if DecodedValue(b) == Some(v) { ValueWasThere(b, v); }
    if ValueFits(v) && StoredValue(v) <= b { ValueRead(b, v); }
  }

  /** What decoding accepts, and as what: exactly the strings that begin with the encoding of an entry
      within the field limits. */
  lemma DecodedIff(isPut: bool, b: Bytes, e: Entry)
    ensures Decoded(isPut, b) == Some(e) <==>
              && e.PutEntry? == isPut && PathFits(e.path)
              && match e
                 case PutEntry(p, v) => ValueFits(v) && PathBytes(p) + StoredValue(v) <= b
                 case DeleteEntry(p) => PathBytes(p) <= b
  {
    hide DecodedPath, DecodedValue, PathFits, PathBytes, StoredValue, ValueFits;
    var p := e.path;
    if DecodedPath(b).Some? {
      var (ids, rest) := DecodedPath(b).value;
      DecodedPathIff(b, ids, rest);
      if e.PutEntry? { DecodedValueIff(rest, e.value); }
      if ids == p { Behind(PathBytes(p), rest, if e.PutEntry? then StoredValue(e.value) else []); }
    }
    if PathFits(p) && PathBytes(p) <= b {
      var n := |PathBytes(p)|;
      assert b == PathBytes(p) + b[n..];
      DecodedPathIff(b, p, b[n..]);
    }
    if e.PutEntry? && PathBytes(p) + StoredValue(e.value) <= b { Begins(PathBytes(p), StoredValue(e.value), b); }
  }

  lemma Behind(a: Bytes, rest: Bytes, c: Bytes)
    ensures a + c <= a + rest <==> c <= rest
  {
    if c <= rest { assert rest == c + rest[|c|..] && a + rest == (a + c) + rest[|c|..]; }
    if a + c <= a + rest {
      assert (a + rest)[|a|..][..|c|] == (a + rest)[..|a| + |c|][|a|..] == (a + c)[|a|..] == c;
      assert (a + rest)[|a|..] == rest;
    }
  }

  lemma Begins(a: Bytes, c: Bytes, b: Bytes)
    requires a + c <= b
    ensures a <= b
  {
    assert b[..|a|] == (a + c)[..|a|] == a;
  }

  // ---------------------------------------------------------------- frames

  type U32 = n: int | 0 <= n < U32_LIMIT

  datatype Frame = Frame(kind: Byte, txn: TxnId, data: Bytes)

  const HEADER: nat := 33

  function TxnBytes(t: TxnId): (b: Bytes)
    ensures |b| == 24
  {
    Be(t.time, 8) + Be(t.nanos, 8) + Be(t.count, 8)
  }

  function HeaderBytes(f: Frame, crc: Bytes -> U32): (b: Bytes)
    ensures |b| == HEADER
  {
    [f.kind] + TxnBytes(f.txn) + Be(crc(f.data), 4) + Be(|f.data|, 4)
  }

  function FrameBytes(f: Frame, crc: Bytes -> U32): (b: Bytes)
    ensures |b| == HEADER + |f.data|
  {
    HeaderBytes(f, crc) + f.data
  }

  /** b is the frame f: kind in 1 byte, the three parts of the transaction id in 8 each, checksum and
      length in 4 each, then the data. */
  ghost predicate FrameIs(f: Frame, crc: Bytes -> U32, b: Bytes) {
    && |b| == 33 + |f.data| && b[0] == f.kind
    && BeAt(b, 1, 8, f.txn.time) && BeAt(b, 9, 8, f.txn.nanos) && BeAt(b, 17, 8, f.txn.count)
    && BeAt(b, 25, 4, crc(f.data)) && BeAt(b, 29, 4, |f.data|) && b[33..] == f.data
  }

  /** Every byte of a frame. */
  lemma FrameLayout(f: Frame, crc: Bytes -> U32)
    ensures FrameIs(f, crc, FrameBytes(f, crc))
  {
    hide BeAt, Be;
    BeLength(f.txn.time, 8);
    BeLength(f.txn.nanos, 8);
    BeLength(f.txn.count, 8);
    BeLength(crc(f.data), 4);
    BeLength(|f.data|, 4);
    var b := [f.kind] + Be(f.txn.time, 8) + Be(f.txn.nanos, 8) + Be(f.txn.count, 8) + Be(crc(f.data), 4) + Be(|f.data|, 4) + f.data;
    assert FrameBytes(f, crc) == b;
    assert b[1..9] == Be(f.txn.time, 8) && b[9..17] == Be(f.txn.nanos, 8) && b[17..25] == Be(f.txn.count, 8);
    assert b[25..29] == Be(crc(f.data), 4) && b[29..33] == Be(|f.data|, 4) && b[33..] == f.data;
    BeWritten(b, 1, 8, f.txn.time);
    BeWritten(b, 9, 8, f.txn.nanos);
    BeWritten(b, 17, 8, f.txn.count);
    BeWritten(b, 25, 4, crc(f.data));
    BeWritten(b, 29, 4, |f.data|);
  }

  function LogBytes(fs: seq<Frame>, crc: Bytes -> U32): Bytes {
    if fs == [] then [] else FrameBytes(fs[0], crc) + LogBytes(fs[1..], crc)
  }

  function ReadTxn(b: Bytes): TxnId
    requires |b| == 24
  {
    TxnId(Wrap(ReadBe(b[..8])), Wrap(ReadBe(b[8..16])), Wrap(ReadBe(b[16..24])))
  }

  function Wrap(n: nat): U64 { n % U64_LIMIT }

  /** The first frame, when it is wholly there and its checksum fits. */
  function FirstFrame(b: Bytes, crc: Bytes -> U32): Option<Frame> {
    if |b| < HEADER then None
    else
      var len := ReadBe(b[29..33]);
      if |b| < HEADER + len then None
      else
        var data := b[33..33 + len];
        if crc(data) != ReadBe(b[25..29]) then None else Some(Frame(b[0], ReadTxn(b[1..25]), data))
  }

  function ReadLog(b: Bytes, crc: Bytes -> U32): seq<Frame>
    decreases |b|
  {
    match FirstFrame(b, crc)
    case None => []
    case Some(f) => [f] + ReadLog(b[HEADER + |f.data|..], crc)
  }

  /** read_wal_file: the loop over the file, without encryption. */
  method ReadWalFile(file: Bytes, crc: Bytes -> U32) returns (frames: seq<Frame>)
    ensures frames == ReadLog(file, crc) && ReadUpTo(file, crc, frames)
  {
    ReadLogIs(file, crc);
    hide FirstFrame, ReadLog, ReadUpTo;
    frames := [];
    var cursor := 0;
    assert file[0..] == file;
    assert [] + ReadLog(file, crc) == ReadLog(file, crc);
    while true
      invariant 0 <= cursor <= |file|
      invariant ReadLog(file, crc) == frames + ReadLog(file[cursor..], crc)
      decreases |file| - cursor
    {
      var f := FirstFrame(file[cursor..], crc);
      ReadLogStep(file[cursor..], crc);
      if f.None? {
        assert frames + [] == frames;
        break;
      }
      assert file[cursor..][HEADER + |f.value.data|..] == file[cursor + HEADER + |f.value.data|..];
      assert frames + ([f.value] + ReadLog(file[cursor + HEADER + |f.value.data|..], crc))
          == (frames + [f.value]) + ReadLog(file[cursor + HEADER + |f.value.data|..], crc);
      frames := frames + [f.value];
      cursor := cursor + HEADER + |f.value.data|;
    }
  }

  lemma ReadLogStep(b: Bytes, crc: Bytes -> U32)
    ensures var f := FirstFrame(b, crc);
            if f.None? then ReadLog(b, crc) == []
            else HEADER + |f.value.data| <= |b| && ReadLog(b, crc) == [f.value] + ReadLog(b[HEADER + |f.value.data|..], crc)
  {
  }

  ghost predicate Writable(f: Frame) {
    |f.data| < U32_LIMIT
  }

  lemma TxnWritten(b: Bytes)
    requires |b| == 24
    ensures TxnBytes(ReadTxn(b)) == b
  {
    hide Be, ReadBe;
    FieldRead(b[..8]);
    FieldRead(b[8..16]);
    FieldRead(b[16..24]);
    assert b == b[..8] + b[8..16] + b[16..24];
  }

  /** A frame is read exactly when its bytes, with the checksum of its data, are at the front. */
  lemma FirstFrameIff(b: Bytes, crc: Bytes -> U32, f: Frame)
    ensures FirstFrame(b, crc) == Some(f) <==> Writable(f) && FrameBytes(f, crc) <= b
  {
    FrameLength(f, crc);
    if Writable(f) && FrameBytes(f, crc) <= b {
      var n := |FrameBytes(f, crc)|;
      assert b == FrameBytes(f, crc) + b[n..] && b[..|b|] == b;
      FirstOfCut(f, crc, b[n..], |b|);
    }
    if FirstFrame(b, crc) == Some(f) { FrameWasThere(b, crc, f); }
  }

  lemma FrameWasThere(b: Bytes, crc: Bytes -> U32, f: Frame)
    requires FirstFrame(b, crc) == Some(f)
    ensures Writable(f) && FrameBytes(f, crc) <= b
  {
    hide Be, ReadBe, TxnBytes, ReadTxn;
    TxnWritten(b[1..25]);
    FieldRead(b[25..29]);
    FieldRead(b[29..33]);
    assert b[..33 + |f.data|] == [b[0]] + b[1..25] + b[25..29] + b[29..33] + b[33..33 + |f.data|];
  }

  /** What is read of a file is a prefix of it, frame by frame with fitting checksums, and behind it no
      whole frame begins. */
  ghost predicate ReadUpTo(b: Bytes, crc: Bytes -> U32, fs: seq<Frame>) {
    && LogBytes(fs, crc) <= b && (forall i | 0 <= i < |fs| :: Writable(fs[i]))
    && forall f | Writable(f) :: !(FrameBytes(f, crc) <= b[|LogBytes(fs, crc)|..])
  }

  lemma {:induction false} ReadLogIs(b: Bytes, crc: Bytes -> U32)
    ensures ReadUpTo(b, crc, ReadLog(b, crc))
    decreases |b|
  {
    hide FirstFrame, FrameBytes, ReadLog;
    ReadLogStep(b, crc);
    var first := FirstFrame(b, crc);
    if first.None? {
      assert b[0..] == b;
      forall f | Writable(f) ensures !(FrameBytes(f, crc) <= b) { FirstFrameIff(b, crc, f); }
    } else {
      var f := first.value;
      FirstFrameIff(b, crc, f);
      FrameLength(f, crc);
      var n := HEADER + |f.data|;
      ReadLogIs(b[n..], crc);
      ReadOneMore(b, crc, f, ReadLog(b[n..], crc));
    }
  }

  lemma ReadOneMore(b: Bytes, crc: Bytes -> U32, f: Frame, fs: seq<Frame>)
    requires Writable(f) && FrameBytes(f, crc) <= b && ReadUpTo(b[HEADER + |f.data|..], crc, fs)
    ensures ReadUpTo(b, crc, [f] + fs)
  {
    hide FrameBytes;
    FrameLength(f, crc);
    var n, all := HEADER + |f.data|, [f] + fs;
    assert all[1..] == fs;
    var log := LogBytes(fs, crc);
    assert LogBytes(all, crc) == FrameBytes(f, crc) + log;
    assert b[n..] == log + b[n..][|log|..] && b == FrameBytes(f, crc) + b[n..];
    assert b == (FrameBytes(f, crc) + log) + b[n..][|log|..];
    assert b[n + |log|..] == b[n..][|log|..];
  }

  /** How many frames lie wholly within the first k bytes. */
  function Whole(fs: seq<Frame>, k: nat): (n: nat)
    ensures n <= |fs|
  {
    if fs == [] || HEADER + |fs[0].data| > k then 0 else 1 + Whole(fs[1..], k - HEADER - |fs[0].data|)
  }

  lemma TxnRoundTrip(t: TxnId)
    ensures ReadTxn(TxnBytes(t)) == t
  {
    hide Be, ReadBe;
    BeLength(t.time, 8);
    BeLength(t.nanos, 8);
    BeLength(t.count, 8);
    var b := Be(t.time, 8) + Be(t.nanos, 8) + Be(t.count, 8);
    assert b[..8] == Be(t.time, 8) && b[8..16] == Be(t.nanos, 8) && b[16..24] == Be(t.count, 8);
    Fields(t.time);
    Fields(t.nanos);
    Fields(t.count);
  }

  /** Reading the header fields of a frame that begins b. */
  lemma HeaderRead(f: Frame, crc: Bytes -> U32, b: Bytes)
    requires Writable(f) && HeaderBytes(f, crc) <= b
    ensures b[0] == f.kind && ReadTxn(b[1..25]) == f.txn && ReadBe(b[25..29]) == crc(f.data) && ReadBe(b[29..33]) == |f.data|
  {
    hide Be, ReadBe, TxnBytes, ReadTxn;
    var t, c, n := TxnBytes(f.txn), Be(crc(f.data), 4), Be(|f.data|, 4);
    TxnLength(f.txn);
    BeLength(crc(f.data), 4);
    BeLength(|f.data|, 4);
    var h := [f.kind] + t + c + n;
    assert HeaderBytes(f, crc) == h;
    assert h[0] == f.kind && h[1..25] == t && h[25..29] == c && h[29..33] == n;
    assert b[1..25] == h[1..25] && b[25..29] == h[25..29] && b[29..33] == h[29..33];
    TxnRoundTrip(f.txn);
    Fields(crc(f.data));
    Fields(|f.data|);
  }

  lemma TxnLength(t: TxnId)
    ensures |TxnBytes(t)| == 24
  {
  }

  /** The first frame of a cut file is read exactly when the cut is behind it. */
  lemma FirstOfCut(f: Frame, crc: Bytes -> U32, rest: Bytes, k: nat)
    requires Writable(f) && k <= HEADER + |f.data| + |rest|
    ensures |FrameBytes(f, crc)| == HEADER + |f.data|
    ensures FirstFrame((FrameBytes(f, crc) + rest)[..k], crc) == if k < HEADER + |f.data| then None else Some(f)
    ensures k >= HEADER + |f.data| ==> (FrameBytes(f, crc) + rest)[..k][HEADER + |f.data|..] == rest[..k - HEADER - |f.data|]
  {
    hide HeaderBytes, ReadBe, ReadTxn;
    var h := HeaderBytes(f, crc);
    HeaderLength(f, crc);
    var b := (h + f.data + rest)[..k];
    if k >= HEADER {
      assert h <= b;
      HeaderRead(f, crc, b);
    }
    if k >= HEADER + |f.data| { assert b[33..33 + |f.data|] == f.data; }
  }

  lemma HeaderLength(f: Frame, crc: Bytes -> U32)
    ensures |HeaderBytes(f, crc)| == HEADER
  {
  }

  /** Whatever byte the file is cut at, reading it back gives exactly the frames wholly there. */
  lemma {:induction false} ReadCut(fs: seq<Frame>, crc: Bytes -> U32, k: nat)
    requires (forall i | 0 <= i < |fs| :: Writable(fs[i])) && k <= |LogBytes(fs, crc)|
    ensures ReadLog(LogBytes(fs, crc)[..k], crc) == fs[..Whole(fs, k)]
  {
    hide FirstFrame, FrameBytes, ReadLog;
    var b := LogBytes(fs, crc)[..k];
    ReadLogStep(b, crc);
    if fs == [] {
      NoFrame(b, crc);
    } else {
      var f, n, rest := fs[0], HEADER + |fs[0].data|, LogBytes(fs[1..], crc);
      FrameLength(f, crc);
      FirstOfCut(f, crc, rest, k);
      if k >= n {
        ReadCut(fs[1..], crc, k - n);
        assert [f] + fs[1..][..Whole(fs[1..], k - n)] == fs[..Whole(fs, k)];
      }
    }
  }

  lemma FrameLength(f: Frame, crc: Bytes -> U32)
    ensures |FrameBytes(f, crc)| == HEADER + |f.data|
  {
  }

  lemma NoFrame(b: Bytes, crc: Bytes -> U32)
    requires |b| < HEADER
    ensures FirstFrame(b, crc) == None
  {
  }

  // ---------------------------------------------------------------- operations to log and back

  const PUT: Byte := 0x70
  const DELETE: Byte := 0x64

  datatype Logged = Logged(txn: TxnId, op: Op)

  function FrameOf(l: Logged): Frame {
    Frame(if l.op.Put? then PUT else DELETE, l.txn, Payload(l.op))
  }

  /** The frame of a logged operation begins with 'p' or 'd' and carries its id and its payload. */
  lemma LoggedLayout(l: Logged, crc: Bytes -> U32)
    ensures var b := FrameBytes(FrameOf(l), crc);
            && b[0] == (if l.op.Put? then 'p' else 'd') as int
            && BeAt(b, 1, 8, l.txn.time) && BeAt(b, 9, 8, l.txn.nanos) && BeAt(b, 17, 8, l.txn.count)
            && PayloadIs(l.op, b[33..])
  {
    FrameLayout(FrameOf(l), crc);
    PayloadLayout(l.op);
    hide BeAt, PayloadIs, Payload, FrameBytes;
  }

  function FramesOf(ls: seq<Logged>): (fs: seq<Frame>)
    ensures |fs| == |ls| && forall i | 0 <= i < |ls| :: fs[i] == FrameOf(ls[i])
  {
    seq(|ls|, i requires 0 <= i < |ls| => FrameOf(ls[i]))
  }

  /** What recovery makes of a frame; batches and other kinds are not put or delete payloads. */
  function EntryOf(f: Frame): Option<Entry> {
    if f.kind == PUT || f.kind == DELETE then Decoded(f.kind == PUT, f.data) else None
  }

  /** Only frames of the two kinds become entries, each of its own sort. */
  lemma EntryKinds(f: Frame)
    ensures EntryOf(f).Some? ==> f.kind == (if EntryOf(f).value.PutEntry? then 'p' else 'd') as int
  {
    hide DecodedPath, DecodedValue;
  }

  ghost predicate LogFits(ls: seq<Logged>) {
    forall i | 0 <= i < |ls| :: Fits(ls[i].op) && |Payload(ls[i].op)| < U32_LIMIT
  }

  /** Encode, frame, cut the file anywhere, read back, decode: exactly the operations whose frames
      are wholly there come back, with their transaction ids. */
  lemma LogRoundTrip(ls: seq<Logged>, crc: Bytes -> U32, k: nat, i: nat)
    requires LogFits(ls) && k <= |LogBytes(FramesOf(ls), crc)|
    requires i < |ReadLog(LogBytes(FramesOf(ls), crc)[..k], crc)|
    ensures |ReadLog(LogBytes(FramesOf(ls), crc)[..k], crc)| == Whole(FramesOf(ls), k) <= |ls|
    ensures ReadLog(LogBytes(FramesOf(ls), crc)[..k], crc)[i].txn == ls[i].txn
    ensures EntryOf(ReadLog(LogBytes(FramesOf(ls), crc)[..k], crc)[i]) == Some(AsRead(ls[i].op))
  {
    hide ReadLog, LogBytes, Payload, Decoded;
    ReadCut(FramesOf(ls), crc, k);
    PayloadRoundTrip(ls[i].op);
  }
}
