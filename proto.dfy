/**
 * Value types of sources/include/vd/proto.hpp and sources/src/proto.cpp:
 * frames (`MovieResource`/`IFrame`) and the eight-byte name `Id8`.
 */
module Proto {
  import opened Wrappers
  import Fun

  newtype byte = x: int | 0 <= x < 256

  /** The dynamic type of a frame: what the decoder emits, or what one of
      the two presenters makes of it. */
  datatype FrameKind = FfmpegFrame | SdlVideoFrame | SdlAudioFrame

  /** A `MovieResource` (an `IFrame` in the queues): its kind and its pts,
      in `AV_TIME_BASE` ticks (`time_mark` is unsigned). */
  datatype Frame = Frame(kind: FrameKind, pts: nat)

  /** `MovieResource()`: a new resource has pts 0. */
  function NewFrame(kind: FrameKind): (f: Frame)
    ensures f.kind == kind && f.pts == 0
  {
    Frame(kind, 0)
  }

  /** `set_pts(p)`: `pts()` becomes `p`, nothing else changes. */
  function SetPts(f: Frame, p: nat): (g: Frame)
    ensures g.pts == p && g.kind == f.kind
  {
    f.(pts := p)
  }

  // ---------------------------------------------------------------------
  // Id8: a name of one to eight characters overlaid on a u64
  // ---------------------------------------------------------------------

  type Bytes8 = s: seq<byte> | |s| == 8 witness [0, 0, 0, 0, 0, 0, 0, 0]

  /** The union `{ char name_[8]; u64 num_; }`: the eight bytes of the name. */
  datatype Id8 = Id8(name: Bytes8)

  datatype Id8Error = NameLength(len: nat)

  function Pow256(n: nat): (r: nat)
    ensures r > 0
  {
    if n == 0 then 1 else 256 * Pow256(n - 1)
  }

  /** The integer whose little-endian bytes are `s` (byte 0 least significant). */
  function LittleEndian(s: seq<byte>): (r: nat)
    ensures r < Pow256(|s|)
  {
    if s == [] then 0 else s[0] as nat + 256 * LittleEndian(s[1..])
  }

  /** `num_`, as the union lays it out on a little-endian machine. */
  function Num(id: Id8): (r: nat)
    ensures r < 0x1_0000_0000_0000_0000
  {
    assert Pow256(8) == 0x1_0000_0000_0000_0000;
    LittleEndian(id.name)
  }

  /** `strlen`: the position of the terminating zero. */
  function StrLen(mem: seq<byte>): (n: nat)
    requires 0 in mem
    ensures n < |mem| && mem[n] == 0 && forall i :: 0 <= i < n ==> mem[i] != 0
  {
    Fun.FirstIndex(mem, (b: byte) => b == 0).value
  }

  function Zeros(n: nat): (z: seq<byte>)
    ensures |z| == n && forall i :: 0 <= i < n ==> z[i] == 0
  {
    seq(n, i => 0)
  }

  /** `Id8(const char* name)`: `num_(0)`, then a throw if `strlen(name)` is 0
      or above 8, else `memcpy` of the name's bytes. `mem` is the memory
      `name` points to, up to and including its terminator. */
  function NewId8(mem: seq<byte>): (r: Result<Id8, Id8Error>)
    requires 0 in mem
    ensures r.Failure? <==> StrLen(mem) == 0 || StrLen(mem) > 8
    ensures r.Failure? ==> r.error == NameLength(StrLen(mem))
    ensures r.Success? ==> r.value.name[..StrLen(mem)] == mem[..StrLen(mem)]
    ensures r.Success? ==> forall i :: StrLen(mem) <= i < 8 ==> r.value.name[i] == 0
  {
    var sz := StrLen(mem);
    if sz == 0 || sz > 8 then Failure(NameLength(sz))
    else Success(Id8(mem[..sz] + Zeros(8 - sz)))
  }

  /** The name with its trailing zero bytes removed. */
  function TrimZeros(s: seq<byte>): seq<byte>
  {
    if s == [] then [] else if s[|s| - 1] == 0 then TrimZeros(s[..|s| - 1]) else s
  }

  /** `to_str`: walks `last` down from 7 past the zero bytes. The guard's
      `last >= 0` is always true of a `size_t`, so the walk needs a non-zero
      byte to stop at; every constructed `Id8` has one. */
  method ToStr(id: Id8) returns (s: seq<byte>)
    requires exists i :: 0 <= i < 8 && id.name[i] != 0
    ensures s == TrimZeros(id.name)
    ensures s != [] && |s| <= 8 && s[|s| - 1] != 0 && s == id.name[..|s|]
  {
    var last := 7;
    assert id.name[..8] == id.name;
    while id.name[last] == 0
      invariant 0 <= last < 8
      invariant exists i :: 0 <= i <= last && id.name[i] != 0
      invariant TrimZeros(id.name) == TrimZeros(id.name[..last + 1])
      decreases last
    {
      assert id.name[..last + 1][..last] == id.name[..last];
      last := last - 1;
    }
    s := id.name[..last + 1];
  }

  /** `to_str` gives back the name every accepted construction was given. */
  lemma {:induction false} ToStrRoundTrip(mem: seq<byte>)
    requires 0 in mem && NewId8(mem).Success?
    ensures TrimZeros(NewId8(mem).value.name) == mem[..StrLen(mem)]
    ensures exists i :: 0 <= i < 8 && NewId8(mem).value.name[i] != 0
  {
    var sz := StrLen(mem);
    var name := NewId8(mem).value.name;
    assert name[0] == mem[0];
    var k := 8;
    assert name[..8] == name;
    while k > sz
      invariant sz <= k <= 8
      invariant TrimZeros(name) == TrimZeros(name[..k])
    {
      assert name[..k][..k - 1] == name[..k - 1];
      k := k - 1;
    }
    assert name[..sz] == mem[..sz];
  }

  /** Copy construction and assignment copy `num_`. */
  function Copy(cpy: Id8): (r: Id8)
    ensures Eq(r, cpy)
  {
    Id8(cpy.name)
  }

  /** `operator ==`: compares `num_` only. */
  predicate Eq(a: Id8, b: Id8) {
    Num(a) == Num(b)
  }

  /** `operator <`: compares `num_` only. */
  predicate Less(a: Id8, b: Id8) {
    Num(a) < Num(b)
  }

  lemma {:induction false} LittleEndianInjective(a: seq<byte>, b: seq<byte>)
    requires |a| == |b| && LittleEndian(a) == LittleEndian(b)
    ensures a == b
    decreases |a|
  {
    if a != [] {
      var x, y := LittleEndian(a[1..]), LittleEndian(b[1..]);
      assert a[0] as nat + 256 * x == b[0] as nat + 256 * y;
      assert x == y;
      LittleEndianInjective(a[1..], b[1..]);
      assert a == [a[0]] + a[1..] && b == [b[0]] + b[1..];
    }
  }

  /** Since `num_` and `name_` are the same eight bytes, `==` on `Id8` is
      equality of the whole name. */
  lemma EqIsSameName(a: Id8, b: Id8)
    ensures Eq(a, b) <==> a.name == b.name
  {
    if Eq(a, b) {
      LittleEndianInjective(a.name, b.name);
    }
  }

  /** `<` is a strict total order, with `==` as its equivalence. */
  lemma LessIsStrictTotalOrder(a: Id8, b: Id8, c: Id8)
    ensures !Less(a, a)
    ensures Less(a, b) && Less(b, c) ==> Less(a, c)
    ensures Less(a, b) ==> !Less(b, a)
    ensures a.name != b.name ==> Less(a, b) || Less(b, a)
  {
    EqIsSameName(a, b);
  }
}
