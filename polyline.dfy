/** services/distanceMatrixService.js: the decoder of the Encoded Polyline
    Algorithm Format that turns an OSRM route geometry into points, and the
    guard of `getDetailedRoutePath` that answers without a request when a
    route has fewer than two coordinates.

    Points are integers in units of 1e-5 degree (the decoder's accumulators);
    a geometry is read one character per code point (OSRM geometries are ASCII). */
module DistanceMatrixService {
  import opened Common

  /** A decoded point, in units of 1e-5 degree. */
  datatype E5Point = E5Point(lat: int, lng: int)

  const Two32: nat := 0x1_0000_0000
  const Two30: nat := 0x4000_0000

  function Pow2(k: nat): (r: nat)
    ensures r >= 1
  {
    if k == 0 then 1 else 2 * Pow2(k - 1)
  }

  /** JavaScript's `|` on two int32 values, both read as their unsigned 32 bits. */
  function Or(a: nat, b: nat): nat
    decreases a + b
  {
    if a == 0 then b
    else if b == 0 then a
    else (if a % 2 == 1 || b % 2 == 1 then 1 else 0) + 2 * Or(a / 2, b / 2)
  }

  /** JavaScript's `c << shift`: the count is taken modulo 32 and only 32 bits are kept. */
  function Shl32(c: nat, shift: nat): nat {
    (c * Pow2(shift % 32)) % Two32
  }

  /** The int32 that 32 unsigned bits denote. */
  function ToInt32(u: int): int {
    if u >= 0x8000_0000 then u - Two32 else u
  }

  /** Zigzag decoding, `(result & 1) ? ~(result >> 1) : (result >> 1)` on int32
      (`>>` is an arithmetic shift, so it rounds toward minus infinity). */
  function ZigZagDecode(u: nat): int {
    var s := ToInt32(u);
    if u % 2 == 1 then -(s / 2) - 1 else s / 2
  }

  /** `encoded.charCodeAt(i) - 63`; `None` is the NaN that reading past the end gives. */
  function ChunkAt(s: string, i: nat): Option<int> {
    if i < |s| then Some(s[i] as int - 63) else None
  }

  /** `b & 0x1f`, the low five bits of the int32 `b`; NaN reads as 0. */
  function Low5(b: Option<int>): nat {
    match b
    case None => 0
    case Some(x) => x % 32
  }

  /** `b >= 0x20`, the continuation test; false for NaN. */
  predicate Continues(b: Option<int>) {
    b.Some? && b.value >= 32
  }

  /** How many characters are left from index `i` on. */
  function Remaining(s: string, i: nat): nat {
    if i <= |s| then |s| - i else 0
  }

  /** One `do … while (b >= 0x20)` loop, started at index `i` with `shift` and
      `acc` so far: the accumulated 32 bits and the index after the last chunk read. */
  function ReadValue(s: string, i: nat, shift: nat, acc: nat): (r: (nat, nat))
    ensures r.1 > i
    ensures acc < Two32 ==> r.0 < Two32
    decreases Remaining(s, i)
  {
    var b := ChunkAt(s, i);
    var acc' := Or(acc, Shl32(Low5(b), shift));
    OrStaysIn32(acc, Shl32(Low5(b), shift));
    if Continues(b) then ReadValue(s, i + 1, shift + 5, acc') else (acc', i + 1)
  }

  /** The (dlat, dlng) pairs read from index `i` to the end: `while (index < len)`. */
  function DeltasFrom(s: string, i: nat): seq<(int, int)>
    decreases Remaining(s, i)
  {
    if i >= |s| then []
    else
      var (rlat, j) := ReadValue(s, i, 0, 0);
      var (rlng, k) := ReadValue(s, j, 0, 0);
      [(ZigZagDecode(rlat), ZigZagDecode(rlng))] + DeltasFrom(s, k)
  }

  /** The points reached by adding the deltas one after the other to (lat, lng). */
  function RunningSums(ds: seq<(int, int)>, lat: int, lng: int): (r: seq<E5Point>)
    ensures |r| == |ds|
    decreases |ds|
  {
    if ds == [] then []
    else [E5Point(lat + ds[0].0, lng + ds[0].1)] + RunningSums(ds[1..], lat + ds[0].0, lng + ds[0].1)
  }

  /** What `decodePolyline` returns, before the division by 1E5. */
  function Decode(s: string): seq<E5Point> {
    RunningSums(DeltasFrom(s, 0), 0, 0)
  }

  /** One of the two inner `do … while` loops of `decodePolyline`. */
  method ReadChunks(encoded: string, start: nat) returns (result: nat, index: nat)
    ensures (result, index) == ReadValue(encoded, start, 0, 0)
  {
    index := start;
    result := 0;
    var shift := 0;
    var reading := true;
    while reading
      invariant reading ==> ReadValue(encoded, index, shift, result) == ReadValue(encoded, start, 0, 0)
      invariant !reading ==> (result, index) == ReadValue(encoded, start, 0, 0)
      decreases Remaining(encoded, index) + (if reading then 1 else 0)
    {
      var b := ChunkAt(encoded, index);
      index := index + 1;
      result := Or(result, Shl32(Low5(b), shift));
      shift := shift + 5;
      reading := Continues(b);
    }
  }

  /** `decodePolyline`: read a latitude delta and a longitude delta, add them to
      the running position, emit the point, until the input is consumed. */
  method DecodePolyline(encoded: string) returns (points: seq<E5Point>)
    ensures encoded == "" ==> points == []
    ensures points == Decode(encoded)
  {
    points := [];
    var index: nat := 0;
    var lat, lng := 0, 0;
    while index < |encoded|
      invariant points + RunningSums(DeltasFrom(encoded, index), lat, lng) == Decode(encoded)
      decreases Remaining(encoded, index)
    {
      var result, next := ReadChunks(encoded, index);
      var dlat := ZigZagDecode(result);
      lat := lat + dlat;
      result, next := ReadChunks(encoded, next);
      var dlng := ZigZagDecode(result);
      lng := lng + dlng;
      points := points + [E5Point(lat, lng)];
      assert DeltasFrom(encoded, index) == [(dlat, dlng)] + DeltasFrom(encoded, next);
      index := next;
    }
  }

  // ----- Facts about the bit operations -----

  lemma {:induction false} OrBound(a: nat, b: nat, k: nat)
    requires a < Pow2(k) && b < Pow2(k)
    ensures Or(a, b) < Pow2(k)
    decreases k
  {
    if a != 0 && b != 0 {
      OrBound(a / 2, b / 2, k - 1);
    }
  }

  /** Or-ing in bits above the ones already set is addition. */
  lemma {:induction false} OrDisjoint(a: nat, c: nat, k: nat)
    requires a < Pow2(k)
    ensures Or(a, c * Pow2(k)) == a + c * Pow2(k)
    decreases k
  {
    if k > 0 && a != 0 && c != 0 {
      assert c * Pow2(k) == 2 * (c * Pow2(k - 1));
      OrDisjoint(a / 2, c, k - 1);
    }
  }

  lemma {:induction false} Pow2Monotone(j: nat, k: nat)
    requires j <= k
    ensures Pow2(j) <= Pow2(k)
    decreases k
  {
    if j < k {
      Pow2Monotone(j, k - 1);
    }
  }

  // ----- The encoder the decoder inverts -----

  /** Zigzag encoding: 2v for v >= 0 and -2v-1 for v < 0. */
  function ZigZagEncode(v: int): nat {
    if v < 0 then -2 * v - 1 else 2 * v
  }

  /** Five-bit chunks, least significant first, with 0x20 on all but the last, offset by 63. */
  function EncodeNat(z: nat): (e: string)
    ensures |e| >= 1
    decreases z
  {
    if z < 32 then [(z + 63) as char]
    else [(z % 32 + 32 + 63) as char] + EncodeNat(z / 32)
  }

  function EncodeDeltas(ds: seq<(int, int)>): string
    decreases |ds|
  {
    if ds == [] then ""
    else EncodeNat(ZigZagEncode(ds[0].0)) + EncodeNat(ZigZagEncode(ds[0].1)) + EncodeDeltas(ds[1..])
  }

  /** The deltas from (lat, lng) to the first point and between consecutive points. */
  function Differences(points: seq<E5Point>, lat: int, lng: int): (ds: seq<(int, int)>)
    ensures |ds| == |points|
    decreases |points|
  {
    if points == [] then []
    else [(points[0].lat - lat, points[0].lng - lng)] + Differences(points[1..], points[0].lat, points[0].lng)
  }

  function Encode(points: seq<E5Point>): string {
    EncodeDeltas(Differences(points, 0, 0))
  }

  /** Coordinates of at most 2^28 - 1 units (far beyond 180 degrees) keep every chunk
      sequence within the 32 bits the decoder accumulates in. */
  const CoordBound: int := 0x1000_0000

  predicate InBounds(p: E5Point) {
    -CoordBound < p.lat < CoordBound && -CoordBound < p.lng < CoordBound
  }

  predicate SmallDelta(d: int) {
    -2 * CoordBound < d < 2 * CoordBound
  }

  lemma Pow2Values()
    ensures Pow2(30) == Two30 && Pow2(32) == Two32
  {
    assert Pow2(10) == 1024;
    Pow2Add(10, 10);
    Pow2Add(20, 10);
    Pow2Add(30, 2);
  }

  lemma {:induction false} Pow2Add(j: nat, k: nat)
    ensures Pow2(j + k) == Pow2(j) * Pow2(k)
    decreases k
  {
    if k > 0 {
      Pow2Add(j, k - 1);
    }
  }

  lemma OrStaysIn32(a: nat, b: nat)
    requires b < Two32
    ensures a < Two32 ==> Or(a, b) < Two32
  {
    if a < Two32 {
      Pow2Values();
      OrBound(a, b, 32);
    }
  }

  /** a * c <= b * c for a <= b. */
  lemma MulMonotone(a: nat, b: nat, c: nat)
    requires a <= b
    ensures a * c <= b * c
  {
  }

  /** A non-zero value below 2^30 after shifting was shifted by less than 30. */
  lemma SmallShift(z: nat, shift: nat)
    requires z != 0 && z * Pow2(shift) < Two30
    ensures shift < 30
  {
    var p := Pow2(shift);
    MulMonotone(1, z, p);
    assert p < Two30;
    if shift >= 30 {
      Pow2Monotone(30, shift);
      Pow2Values();
      assert false;
    }
  }

  /** Shifting a chunk that stays below 2^30 loses no bits. */
  lemma Shl32Exact(c: nat, z: nat, shift: nat)
    requires c <= z && z * Pow2(shift) < Two30
    ensures Shl32(c, shift) == c * Pow2(shift)
  {
    var p := Pow2(shift);
    if c == 0 {
      var q := Pow2(shift % 32);
      assert c * q == 0;
    } else {
      SmallShift(z, shift);
      ModSmall(shift, 32);
      MulMonotone(c, z, p);
      MulMonotone(0, c, p);
      ModSmall(c * p, Two32);
    }
  }

  lemma ModSmall(x: int, m: int)
    requires 0 <= x < m
    ensures x % m == x
  {
  }

  /** The arithmetic of splitting z into its low chunk and the rest, at scale p. */
  lemma ChunkSplit(z: nat, p: nat)
    requires p >= 1
    ensures (z % 32) * p + (z / 32) * (32 * p) == z * p
    ensures (z % 32) * p + p <= 32 * p
    ensures (z / 32) * (32 * p) <= z * p
  {
    assert z == (z % 32) + (z / 32) * 32;
    assert z * p == (z % 32) * p + (z / 32) * 32 * p;
    MulMonotone(z % 32 + 1, 32, p);
    MulMonotone(0, z % 32, p);
  }

  /** A suffix that is a + b starts with a and continues with b. */
  lemma SplitSuffix(s: string, i: nat, a: string, b: string)
    requires i <= |s| && s[i..] == a + b
    ensures i + |a| <= |s| && s[i + |a|..] == b
  {
    assert s[i + |a|..] == s[i..][|a|..];
  }

  /** The last chunk of `z` (when z < 32) is or-ed in at `shift` and ends the value. */
  lemma ReadLastChunk(s: string, i: nat, z: nat, shift: nat, acc: nat, tail: string)
    requires z < 32
    requires i <= |s| && s[i..] == EncodeNat(z) + tail
    requires acc < Pow2(shift)
    requires z * Pow2(shift) < Two30
    ensures ReadValue(s, i, shift, acc) == (acc + z * Pow2(shift), i + |EncodeNat(z)|)
  {
    assert s[i] == s[i..][0] == EncodeNat(z)[0];
    var b := ChunkAt(s, i);
    assert b == Some(z) && !Continues(b);
    assert Low5(b) == z by { ModSmall(z, 32); }
    Shl32Exact(z, z, shift);
    OrDisjoint(acc, z, shift);
  }

  /** The character that starts the encoding of z >= 32, and what follows it. */
  lemma MiddleChunkSuffix(s: string, i: nat, z: nat, tail: string)
    requires z >= 32
    requires i <= |s| && s[i..] == EncodeNat(z) + tail
    ensures i < |s| && s[i] as int == z % 32 + 32 + 63
    ensures s[i + 1..] == EncodeNat(z / 32) + tail
    ensures |EncodeNat(z)| == 1 + |EncodeNat(z / 32)|
  {
    assert s[i] == s[i..][0] == EncodeNat(z)[0];
    assert s[i + 1..] == s[i..][1..];
    assert EncodeNat(z) == [EncodeNat(z)[0]] + EncodeNat(z / 32);
  }

  /** Reading a chunk with the continuation bit adds its five bits at `shift` and goes on. */
  lemma MiddleChunkRead(s: string, i: nat, chunk: nat, z: nat, shift: nat, acc: nat)
    requires i < |s| && chunk < 32 && s[i] as int == chunk + 32 + 63
    requires acc < Pow2(shift) && chunk <= z && z * Pow2(shift) < Two30
    ensures ReadValue(s, i, shift, acc) == ReadValue(s, i + 1, shift + 5, acc + chunk * Pow2(shift))
  {
    var b := ChunkAt(s, i);
    assert b == Some(chunk + 32) && Continues(b);
    assert Low5(b) == chunk by { ModSmall(chunk, 32); assert (chunk + 32) % 32 == chunk % 32; }
    Shl32Exact(chunk, z, shift);
    OrDisjoint(acc, chunk, shift);
  }

  /** A chunk of `z` with the continuation bit: its five bits are added at
      `shift`, giving `acc'`, and reading goes on with z / 32 at shift + 5. */
  lemma ReadMiddleChunk(s: string, i: nat, z: nat, shift: nat, acc: nat, tail: string) returns (acc': nat)
    requires z >= 32
    requires i <= |s| && s[i..] == EncodeNat(z) + tail
    requires acc < Pow2(shift)
    requires z * Pow2(shift) < Two30
    ensures ReadValue(s, i, shift, acc) == ReadValue(s, i + 1, shift + 5, acc')
    ensures acc' < Pow2(shift + 5) && (z / 32) * Pow2(shift + 5) < Two30
    ensures acc' + (z / 32) * Pow2(shift + 5) == acc + z * Pow2(shift)
    ensures i + 1 <= |s| && s[i + 1..] == EncodeNat(z / 32) + tail
    ensures |EncodeNat(z)| == 1 + |EncodeNat(z / 32)|
  {
    var chunk := z % 32;
    MulMonotone(0, chunk, Pow2(shift));
    acc' := acc + chunk * Pow2(shift);
    MiddleChunkSuffix(s, i, z, tail);
    MiddleChunkRead(s, i, chunk, z, shift, acc);
    MiddleChunkBounds(z, shift, acc);
  }

  /** The arithmetic of going on after a middle chunk. */
  lemma MiddleChunkBounds(z: nat, shift: nat, acc: nat)
    requires z >= 32
    requires acc < Pow2(shift)
    requires z * Pow2(shift) < Two30
    ensures acc + (z % 32) * Pow2(shift) < Pow2(shift + 5)
    ensures (z / 32) * Pow2(shift + 5) < Two30
    ensures acc + (z % 32) * Pow2(shift) + (z / 32) * Pow2(shift + 5) == acc + z * Pow2(shift)
  {
    var p := Pow2(shift);
    assert Pow2(shift + 5) == 32 * p by {
      Pow2Add(shift, 5);
      assert Pow2(5) == 32;
    }
    ChunkSplit(z, p);
  }

  /** Reading the chunks of `z` at `shift` on top of `acc` adds `z << shift`. */
  lemma {:induction false} ReadEncodedNat(s: string, i: nat, z: nat, shift: nat, acc: nat, tail: string)
    requires i <= |s| && s[i..] == EncodeNat(z) + tail
    requires acc < Pow2(shift)
    requires z * Pow2(shift) < Two30
    ensures ReadValue(s, i, shift, acc) == (acc + z * Pow2(shift), i + |EncodeNat(z)|)
    decreases z
  {
    if z < 32 {
      ReadLastChunk(s, i, z, shift, acc, tail);
    } else {
      var acc' := ReadMiddleChunk(s, i, z, shift, acc, tail);
      ReadEncodedNat(s, i + 1, z / 32, shift + 5, acc', tail);
    }
  }

  lemma ZigZagRoundTrip(v: int)
    requires SmallDelta(v)
    ensures ZigZagEncode(v) < Two30
    ensures ZigZagDecode(ZigZagEncode(v)) == v
  {
    Pow2Values();
  }

  /** Reading one encoded signed value at index i gives it back, and the index after it. */
  lemma ReadEncodedValue(s: string, i: nat, v: int, tail: string) returns (j: nat)
    requires SmallDelta(v)
    requires i <= |s| && s[i..] == EncodeNat(ZigZagEncode(v)) + tail
    ensures ReadValue(s, i, 0, 0).1 == j
    ensures ZigZagDecode(ReadValue(s, i, 0, 0).0) == v
    ensures j <= |s| && s[j..] == tail
  {
    ZigZagRoundTrip(v);
    ReadEncodedNat(s, i, ZigZagEncode(v), 0, 0, tail);
    j := i + |EncodeNat(ZigZagEncode(v))|;
    SplitSuffix(s, i, EncodeNat(ZigZagEncode(v)), tail);
  }

  /** One round of the outer loop: a latitude delta read from i, then a longitude delta. */
  lemma DeltasFromCons(s: string, i: nat, j: nat)
    requires i < |s| && ReadValue(s, i, 0, 0).1 == j
    ensures DeltasFrom(s, i)
         == [(ZigZagDecode(ReadValue(s, i, 0, 0).0), ZigZagDecode(ReadValue(s, j, 0, 0).0))]
            + DeltasFrom(s, ReadValue(s, j, 0, 0).1)
  {
  }

  lemma {:induction false} DeltasRoundTrip(s: string, i: nat, ds: seq<(int, int)>)
    requires forall k :: 0 <= k < |ds| ==> SmallDelta(ds[k].0) && SmallDelta(ds[k].1)
    requires i <= |s| && s[i..] == EncodeDeltas(ds)
    ensures DeltasFrom(s, i) == ds
    decreases |ds|
  {
    if ds == [] {
      assert |s[i..]| == 0;
    } else {
      var e1 := EncodeNat(ZigZagEncode(ds[0].0));
      var e2 := EncodeNat(ZigZagEncode(ds[0].1));
      var rest := EncodeDeltas(ds[1..]);
      assert s[i..] == e1 + (e2 + rest);
      var j := ReadEncodedValue(s, i, ds[0].0, e2 + rest);
      var k := ReadEncodedValue(s, j, ds[0].1, rest);
      DeltasRoundTrip(s, k, ds[1..]);
      DeltasFromCons(s, i, j);
    }
  }

  lemma {:induction false} RunningSumsOfDifferences(points: seq<E5Point>, lat: int, lng: int)
    ensures RunningSums(Differences(points, lat, lng), lat, lng) == points
    decreases |points|
  {
    if points != [] {
      RunningSumsOfDifferences(points[1..], points[0].lat, points[0].lng);
    }
  }

  lemma {:induction false} DifferencesAreSmall(points: seq<E5Point>, lat: int, lng: int)
    requires -CoordBound < lat < CoordBound && -CoordBound < lng < CoordBound
    requires forall k :: 0 <= k < |points| ==> InBounds(points[k])
    ensures forall k :: 0 <= k < |points| ==>
      SmallDelta(Differences(points, lat, lng)[k].0) && SmallDelta(Differences(points, lat, lng)[k].1)
    decreases |points|
  {
    if points != [] {
      DifferencesAreSmall(points[1..], points[0].lat, points[0].lng);
      var ds := Differences(points, lat, lng);
      forall k | 0 <= k < |points|
        ensures SmallDelta(ds[k].0) && SmallDelta(ds[k].1)
      {
        if k > 0 {
          assert ds[k] == Differences(points[1..], points[0].lat, points[0].lng)[k - 1];
        }
      }
    }
  }

  /** Decoding inverts encoding for every list of points within the coordinate bound. */
  lemma DecodeEncode(points: seq<E5Point>)
    requires forall k :: 0 <= k < |points| ==> InBounds(points[k])
    ensures Decode(Encode(points)) == points
  {
    var s := Encode(points);
    DifferencesAreSmall(points, 0, 0);
    assert s[0..] == s;
    DeltasRoundTrip(s, 0, Differences(points, 0, 0));
    RunningSumsOfDifferences(points, 0, 0);
  }

  // ----- The shape of the output -----

  function SumLat(ds: seq<(int, int)>): int
    decreases |ds|
  {
    if ds == [] then 0 else SumLat(ds[..|ds| - 1]) + ds[|ds| - 1].0
  }

  function SumLng(ds: seq<(int, int)>): int
    decreases |ds|
  {
    if ds == [] then 0 else SumLng(ds[..|ds| - 1]) + ds[|ds| - 1].1
  }

  lemma {:induction false} SumsCons(d: (int, int), ds: seq<(int, int)>)
    ensures SumLat([d] + ds) == d.0 + SumLat(ds)
    ensures SumLng([d] + ds) == d.1 + SumLng(ds)
    decreases |ds|
  {
    if ds != [] {
      assert ([d] + ds)[..|[d] + ds| - 1] == [d] + ds[..|ds| - 1];
      SumsCons(d, ds[..|ds| - 1]);
    }
  }

  /** Point k is the start plus the sum of the first k + 1 deltas. */
  lemma {:induction false} RunningSumsAt(ds: seq<(int, int)>, lat: int, lng: int, k: nat)
    requires k < |ds|
    ensures RunningSums(ds, lat, lng)[k] == E5Point(lat + SumLat(ds[..k + 1]), lng + SumLng(ds[..k + 1]))
    decreases k
  {
    SumsCons(ds[0], ds[1..k + 1]);
    assert ds[..k + 1] == [ds[0]] + ds[1..k + 1];
    if k > 0 {
      RunningSumsAt(ds[1..], lat + ds[0].0, lng + ds[0].1, k - 1);
      assert ds[1..][..k] == ds[1..k + 1];
    } else {
      assert ds[1..1] == [];
    }
  }

  /** Each decoded point is the running sum of the deltas read so far. */
  lemma DecodedPointIsPrefixSum(s: string, k: nat)
    requires k < |Decode(s)|
    ensures Decode(s)[k] == E5Point(SumLat(DeltasFrom(s, 0)[..k + 1]), SumLng(DeltasFrom(s, 0)[..k + 1]))
  {
    RunningSumsAt(DeltasFrom(s, 0), 0, 0, k);
  }

  /** Every point consumes at least one character for its latitude and one for its
      longitude, so there are at most half as many points as characters, rounded up. */
  lemma {:induction false} DeltasCount(s: string, i: nat)
    ensures |DeltasFrom(s, i)| <= (Remaining(s, i) + 1) / 2
    decreases Remaining(s, i)
  {
    if i < |s| {
      var j := ReadValue(s, i, 0, 0).1;
      var k := ReadValue(s, j, 0, 0).1;
      DeltasCount(s, k);
    }
  }

  lemma DecodeLength(s: string)
    ensures |Decode(s)| <= (|s| + 1) / 2
  {
    DeltasCount(s, 0);
  }

  // ----- getDetailedRoutePath -----

  /** A detailed route: its geometry as coordinates, and OSRM's distance and duration. */
  datatype PathInfo = PathInfo(path: seq<Coord>, distance: real, duration: real)

  /** The first route of a successful OSRM answer. */
  datatype OsrmRoute = OsrmRoute(geometry: string, distance: real, duration: real)

  /** A decoded point as the `[lat / 1E5, lng / 1E5]` pair `decodePolyline` pushes (exact division). */
  function ToCoord(p: E5Point): Coord {
    Coord(Num(p.lat as real / 100000.0), Num(p.lng as real / 100000.0))
  }

  function ToCoords(ps: seq<E5Point>): (cs: seq<Coord>)
    ensures |cs| == |ps|
    ensures forall i :: 0 <= i < |ps| ==> cs[i] == ToCoord(ps[i])
  {
    seq(|ps|, i requires 0 <= i < |ps| => ToCoord(ps[i]))
  }

  /** `getDetailedRoutePath`. `osrm` is the routing service: `None` when the request
      fails or finds no route, which the function reports as an error. */
  function GetDetailedRoutePath(coordinates: Option<seq<Coord>>, osrm: seq<Coord> -> Option<OsrmRoute>): (r: Result<PathInfo>)
    ensures coordinates.None? || |coordinates.value| < 2 ==>
      r == Ok(PathInfo(coordinates.GetOr([]), 0.0, 0.0))
    ensures coordinates.Some? && |coordinates.value| >= 2 ==>
      (r.Ok? <==> osrm(coordinates.value).Some?)
    ensures coordinates.Some? && |coordinates.value| >= 2 && r.Ok? ==>
      var route := osrm(coordinates.value).value;
      r.value.distance == route.distance && r.value.duration == route.duration &&
      r.value.path == ToCoords(Decode(route.geometry))
  {
    if coordinates.None? || |coordinates.value| < 2 then Ok(PathInfo(coordinates.GetOr([]), 0.0, 0.0))
    else match osrm(coordinates.value)
      case None => Err("Could not get detailed route path from OSRM service.")
      case Some(route) => Ok(PathInfo(ToCoords(Decode(route.geometry)), route.distance, route.duration))
  }
}
