/** The wire format of EPaxos Commit and PreAccept messages, which have the same layout
    (epaxos/defs.go), and of commands (state/state.go). */
module Wire {
  import opened Options
  import opened State

  type Int32 = x: int | -0x8000_0000 <= x < 0x8000_0000

  type Bytes = seq<Byte>

  /** The fields of a Commit or a PreAccept. */
  datatype Body = Body(leaderId: Int32, replica: Int32, instance: Int32, ballot: Int32, command: seq<Command>,
                       seqno: Int32, deps: seq<Int32>)

  /** What is left of the stream comes with every value read; None is an error. */
  datatype Read<+T> = Read(value: T, rest: Bytes)

  // ---------------------------------------------------------------- integers

  function LowByte(x: int): Byte {
    x % 0x100
  }

  function Shr8(x: int): int {
    x / 0x100
  }

  function Low32(x: int): (b: Bytes)
    ensures |b| == 4
  {
    [LowByte(x), LowByte(Shr8(x)), LowByte(Shr8(Shr8(x))), LowByte(Shr8(Shr8(Shr8(x))))]
  }

  /** What four shifts by 8 leave. */
  function Shr32(x: int): int {
    Shr8(Shr8(Shr8(Shr8(x))))
  }

  lemma Digits(x: int)
    ensures x == LittleEndian32(Low32(x)) + 0x1_0000_0000 * Shr32(x)
  {
    var x1 := Shr8(x);
    var x2 := Shr8(x1);
    var x3 := Shr8(x2);
    assert x == LowByte(x) + 0x100 * x1;
    assert x1 == LowByte(x1) + 0x100 * x2;
    assert x2 == LowByte(x2) + 0x100 * x3;
    assert x3 == LowByte(x3) + 0x100 * Shr32(x);
    hide LowByte, Shr8;
  }

  function Int32Bytes(x: Int32): (b: Bytes)
    ensures |b| == 4
  {
    Low32(x)
  }

  function Int32Of(b: Bytes): Int32
    requires |b| == 4
  {
    var u := LittleEndian32(b);
    if u < 0x8000_0000 then u else u - 0x1_0000_0000
  }

  lemma Int32RoundTrip(x: Int32)
    ensures Int32Of(Int32Bytes(x)) == x
  {
    hide Low32, LittleEndian32, Shr32;
    Digits(x);
  }

  function KeyBytes(k: Key): (b: Bytes)
    ensures |b| == 8
  {
    Low32(k) + Low32(Shr32(k))
  }

  function KeyOf(b: Bytes): Key
    requires |b| == 8
  {
    Wrap64(LittleEndian64(b))
  }

  lemma KeyRoundTrip(k: Key)
    ensures KeyOf(KeyBytes(k)) == k
  {
    KeyHalves(k);
    hide *;
    Digits(k);
    Digits(Shr32(k));
    SignedBack(k, LittleEndian32(Low32(k)), LittleEndian32(Low32(Shr32(k))), Shr32(Shr32(k)));
  }

  lemma KeyHalves(k: Key)
    ensures KeyOf(KeyBytes(k)) == Wrap64(LittleEndian32(Low32(k)) + 0x1_0000_0000 * LittleEndian32(Low32(Shr32(k))))
  {
    hide Low32, Wrap64;
    var b := KeyBytes(k);
    assert b[4..] == Low32(Shr32(k));
    SameFront(Low32(k), b);
  }

  lemma SameFront(a: Bytes, b: Bytes)
    requires |a| == 4 <= |b| && b[..4] == a
    ensures LittleEndian32(b) == LittleEndian32(a)
  {
    assert forall i :: 0 <= i < 4 ==> a[i] == b[..4][i];
  }

  lemma SignedBack(k: Key, low: nat, high: nat, top: int)
    requires low < 0x1_0000_0000 && high < 0x1_0000_0000
    requires k == low + 0x1_0000_0000 * (high + 0x1_0000_0000 * top)
    ensures Wrap64(low + 0x1_0000_0000 * high) == k
  {
    var u := low + 0x1_0000_0000 * high;
    assert k == u + 0x1_0000_0000_0000_0000 * top;
    assert 0 <= u < 0x1_0000_0000_0000_0000;
    assert top == 0 || top == -1;
  }

  // ---------------------------------------------------------------- varints

  /** binary.PutUvarint: seven bits a byte, the lowest first, the top bit set on all but the last. */
  function Uvarint(u: nat): (b: Bytes)
    ensures b != []
  {
    if u < 0x80 then [u] else [u % 0x80 + 0x80] + Uvarint(u / 0x80)
  }

  /** binary.ReadUvarint, from its i-th byte on: at most ten bytes, the tenth at most 1. */
  function ReadUvarint(s: Bytes, i: nat): Option<Read<nat>>
    decreases |s|
  {
    if s == [] || i >= 10 then None
    else if s[0] < 0x80 then
      if i == 9 && s[0] > 1 then None else Some(Read(s[0], s[1..]))
    else
      match ReadUvarint(s[1..], i + 1)
      case None => None
      case Some(r) => Some(Read(s[0] - 0x80 + 0x80 * r.value, r.rest))
  }

  /** What fits into the bytes from the i-th on. */
  function Room(i: nat): nat
    decreases 10 - i
  {
    if i >= 10 then 0 else if i == 9 then 2 else 0x80 * Room(i + 1)
  }

  lemma {:induction false} UvarintRoundTrip(u: nat, i: nat, suffix: Bytes)
    requires u < Room(i)
    ensures ReadUvarint(Uvarint(u) + suffix, i) == Some(Read(u, suffix))
    decreases u
  {
    var s := Uvarint(u) + suffix;
    if u < 0x80 {
      assert s[1..] == suffix;
    } else {
      UvarintRoundTrip(u / 0x80, i + 1, suffix);
      assert s[1..] == Uvarint(u / 0x80) + suffix;
    }
  }

  /** binary.PutVarint of a length: zig-zag doubles it. */
  function Length(n: nat): Bytes {
    Uvarint(2 * n)
  }

  /** binary.ReadVarint: the lowest bit is the sign. */
  function ReadVarint(s: Bytes): Option<Read<int>> {
    match ReadUvarint(s, 0)
    case None => None
    case Some(r) => Some(Read(if r.value % 2 == 0 then r.value / 2 else -(r.value / 2) - 1, r.rest))
  }

  lemma LengthRoundTrip(n: nat, suffix: Bytes)
    requires n < 0x8000_0000_0000_0000
    ensures ReadVarint(Length(n) + suffix) == Some(Read(n, suffix))
  {
    assert Room(0) == 0x1_0000_0000_0000_0000 by {
      assert Room(7) == 0x8000 && Room(4) == 0x80 * 0x80 * 0x80 * Room(7) && Room(1) == 0x80 * 0x80 * 0x80 * Room(4);
    }
    UvarintRoundTrip(2 * n, 0, suffix);
  }

  // ---------------------------------------------------------------- commands

  function Take(s: Bytes, n: nat): Option<Read<Bytes>> {
    if |s| < n then None else Some(Read(s[..n], s[n..]))
  }

  lemma TakeFront(b: Bytes, suffix: Bytes)
    ensures Take(b + suffix, |b|) == Some(Read(b, suffix))
  {
  }

  /** The length of a value goes into 16 bits of a 4-byte field. */
  function ValueBytes(v: Value): Bytes {
    [LowByte(|v|), LowByte(|v| / 0x100), 0, 0] + v
  }

  function ReadValue(s: Bytes): (r: Option<Read<Value>>)
    ensures r.Some? ==> |r.value.value| < 0x1_0000
  {
    match Take(s, 4)
    case None => None
    case Some(h) => Take(h.rest, h.value[0] as int + 0x100 * h.value[1] as int)
  }

  predicate Short(v: Value) {
    |v| < 0x1_0000
  }

  lemma ValueRoundTrip(v: Value, suffix: Bytes)
    requires Short(v)
    ensures ReadValue(ValueBytes(v) + suffix) == Some(Read(v, suffix))
  {
    var h: Bytes := [LowByte(|v|), LowByte(|v| / 0x100), 0, 0];
    assert ValueBytes(v) + suffix == h + (v + suffix);
    TakeFront(h, v + suffix);
    TakeFront(v, suffix);
  }

  function CommandBytes(c: Command): Bytes {
    [c.op] + KeyBytes(c.k) + ValueBytes(c.v)
  }

  function ReadCommand(s: Bytes): (r: Option<Read<Command>>)
    ensures r.Some? ==> Short(r.value.value.v)
  {
    match Take(s, 1)
    case None => None
    case Some(op) =>
      match Take(op.rest, 8)
      case None => None
      case Some(k) =>
        match ReadValue(k.rest)
        case None => None
        case Some(v) => Some(Read(Command(op.value[0], KeyOf(k.value), v.value), v.rest))
  }

  lemma CommandRoundTrip(c: Command, suffix: Bytes)
    requires Short(c.v)
    ensures ReadCommand(CommandBytes(c) + suffix) == Some(Read(c, suffix))
  {
    var rest1, rest2 := KeyBytes(c.k) + ValueBytes(c.v) + suffix, ValueBytes(c.v) + suffix;
    assert CommandBytes(c) + suffix == [c.op] + rest1;
    assert rest1 == KeyBytes(c.k) + rest2;
    TakeFront([c.op], rest1);
    TakeFront(KeyBytes(c.k), rest2);
    KeyRoundTrip(c.k);
    ValueRoundTrip(c.v, suffix);
  }

  function CommandsBytes(cs: seq<Command>, n: nat): Bytes
    requires n <= |cs|
  {
    if n == 0 then [] else CommandsBytes(cs, n - 1) + CommandBytes(cs[n - 1])
  }

  function ReadCommands(s: Bytes, n: nat): (r: Option<Read<seq<Command>>>)
    ensures r.Some? ==> |r.value.value| == n && forall i :: 0 <= i < n ==> Short(r.value.value[i].v)
  {
    if n == 0 then Some(Read([], s))
    else
      match ReadCommands(s, n - 1)
      case None => None
      case Some(cs) =>
        match ReadCommand(cs.rest)
        case None => None
        case Some(c) => Some(Read(cs.value + [c.value], c.rest))
  }

  lemma {:induction false} CommandsRoundTrip(cs: seq<Command>, n: nat, suffix: Bytes)
    requires n <= |cs| && forall i :: 0 <= i < n ==> Short(cs[i].v)
    ensures ReadCommands(CommandsBytes(cs, n) + suffix, n) == Some(Read(cs[..n], suffix))
  {
    hide CommandBytes, ReadCommand;
    if n > 0 {
      CommandsRoundTrip(cs, n - 1, CommandBytes(cs[n - 1]) + suffix);
      assert CommandsBytes(cs, n) + suffix == CommandsBytes(cs, n - 1) + (CommandBytes(cs[n - 1]) + suffix);
      CommandRoundTrip(cs[n - 1], suffix);
      assert cs[..n] == cs[..n - 1] + [cs[n - 1]];
    } else {
      assert CommandsBytes(cs, 0) + suffix == suffix;
    }
  }

  // ---------------------------------------------------------------- messages

  function DepsBytes(deps: seq<Int32>, n: nat): Bytes
    requires n <= |deps|
  {
    if n == 0 then [] else DepsBytes(deps, n - 1) + Int32Bytes(deps[n - 1])
  }

  function ReadInt32(s: Bytes): Option<Read<Int32>> {
    match Take(s, 4)
    case None => None
    case Some(b) => Some(Read(Int32Of(b.value), b.rest))
  }

  function ReadDeps(s: Bytes, n: nat): (r: Option<Read<seq<Int32>>>)
    ensures r.Some? ==> |r.value.value| == n
  {
    if n == 0 then Some(Read([], s))
    else
      match ReadDeps(s, n - 1)
      case None => None
      case Some(ds) =>
        match ReadInt32(ds.rest)
        case None => None
        case Some(d) => Some(Read(ds.value + [d.value], d.rest))
  }

  lemma Int32Front(x: Int32, suffix: Bytes)
    ensures ReadInt32(Int32Bytes(x) + suffix) == Some(Read(x, suffix))
  {
    TakeFront(Int32Bytes(x), suffix);
    Int32RoundTrip(x);
  }

  lemma {:induction false} DepsRoundTrip(deps: seq<Int32>, n: nat, suffix: Bytes)
    requires n <= |deps|
    ensures ReadDeps(DepsBytes(deps, n) + suffix, n) == Some(Read(deps[..n], suffix))
  {
    if n > 0 {
      DepsRoundTrip(deps, n - 1, Int32Bytes(deps[n - 1]) + suffix);
      assert DepsBytes(deps, n) + suffix == DepsBytes(deps, n - 1) + (Int32Bytes(deps[n - 1]) + suffix);
      Int32Front(deps[n - 1], suffix);
      assert deps[..n] == deps[..n - 1] + [deps[n - 1]];
    } else {
      assert DepsBytes(deps, 0) + suffix == suffix;
    }
  }

  function Header(t: Body): Bytes {
    Int32Bytes(t.leaderId) + Int32Bytes(t.replica) + Int32Bytes(t.instance) + Int32Bytes(t.ballot)
  }

  function BodyBytes(t: Body): Bytes {
    Header(t) + Length(|t.command|) + CommandsBytes(t.command, |t.command|) + Int32Bytes(t.seqno)
    + Length(|t.deps|) + DepsBytes(t.deps, |t.deps|)
  }

  /** A negative length makes the allocation panic. */
  datatype Outcome = Done(body: Body, rest: Bytes) | Failed | Panicked

  /** Unmarshal. A command that cannot be read is not reported as such; the stream is then at its end, so
      the read that follows fails. */
  function ReadBody(s: Bytes): Outcome {
    match Take(s, 16)
    case None => Failed
    case Some(h) =>
      match ReadVarint(h.rest)
      case None => Failed
      case Some(len1) =>
        if len1.value < 0 then Panicked else ReadAfterHeader(h.value, len1.value, len1.rest)
  }

  function ReadAfterHeader(h: Bytes, alen1: nat, s: Bytes): Outcome
    requires |h| == 16
  {
    match ReadCommands(s, alen1)
    case None => Failed
    case Some(cs) =>
      match ReadInt32(cs.rest)
      case None => Failed
      case Some(seqno) =>
        match ReadVarint(seqno.rest)
        case None => Failed
        case Some(len2) =>
          if len2.value < 0 then Panicked
          else
            match ReadDeps(len2.rest, len2.value)
            case None => Failed
            case Some(deps) =>
              Done(Body(Int32Of(h[..4]), Int32Of(h[4..8]), Int32Of(h[8..12]), Int32Of(h[12..]), cs.value,
                        seqno.value, deps.value), deps.rest)
  }

  predicate AllShort(cs: seq<Command>) {
    forall i :: 0 <= i < |cs| ==> Short(cs[i].v)
  }

  /** Lengths fit into 64 bits: memory is finite. */
  predicate Countable(t: Body) {
    |t.command| < 0x8000_0000_0000_0000 && |t.deps| < 0x8000_0000_0000_0000
  }

  /** Reading back what was written, followed by anything, gives the message and leaves exactly the rest,
      if and only if every value is shorter than 65536 bytes. */
  lemma RoundTrip(t: Body, suffix: Bytes)
    requires Countable(t)
    ensures ReadBody(BodyBytes(t) + suffix) == Done(t, suffix) <==> AllShort(t.command)
  {
    if AllShort(t.command) {
      ReadsBack(t, suffix);
    } else {
      ReadsShort(BodyBytes(t) + suffix);
    }
  }

  lemma ReadsShort(s: Bytes)
    ensures ReadBody(s).Done? ==> AllShort(ReadBody(s).body.command)
  {
    hide Take, ReadVarint, ReadInt32, Int32Of;
  }

  ghost function Tail(t: Body, suffix: Bytes): Bytes {
    CommandsBytes(t.command, |t.command|)
    + (Int32Bytes(t.seqno) + (Length(|t.deps|) + (DepsBytes(t.deps, |t.deps|) + suffix)))
  }

  lemma ReadsBack(t: Body, suffix: Bytes)
    requires Countable(t) && AllShort(t.command)
    ensures ReadBody(BodyBytes(t) + suffix) == Done(t, suffix)
  {
    SplitBody(t, suffix);
    HeaderRoundTrip(t, Length(|t.command|) + Tail(t, suffix));
    LengthRoundTrip(|t.command|, Tail(t, suffix));
    TailReadsBack(t, suffix);
    hide *;
    HeaderThenTail(BodyBytes(t) + suffix, Header(t), |t.command|, Tail(t, suffix));
  }

  lemma SplitBody(t: Body, suffix: Bytes)
    ensures BodyBytes(t) + suffix == Header(t) + (Length(|t.command|) + Tail(t, suffix))
  {
    hide Header, Length, CommandsBytes, DepsBytes, Int32Bytes;
  }

  lemma HeaderThenTail(s: Bytes, h: Bytes, alen1: nat, tail: Bytes)
    requires |h| == 16 && Take(s, 16).Some? && Take(s, 16).value.value == h
    requires ReadVarint(Take(s, 16).value.rest) == Some(Read(alen1, tail))
    ensures ReadBody(s) == ReadAfterHeader(h, alen1, tail)
  {
    hide Take, ReadVarint, ReadAfterHeader;
  }

  lemma TailReadsBack(t: Body, suffix: Bytes)
    requires Countable(t) && AllShort(t.command)
    ensures |Header(t)| == 16 && ReadAfterHeader(Header(t), |t.command|, Tail(t, suffix)) == Done(t, suffix)
  {
    hide Header, Int32Of, ReadVarint, Length, ReadCommands, CommandsBytes, ReadDeps, DepsBytes, Take, ReadInt32, Int32Bytes;
    var s5 := DepsBytes(t.deps, |t.deps|) + suffix;
    var s4 := Length(|t.deps|) + s5;
    HeaderRoundTrip(t, []);
    CommandsRoundTrip(t.command, |t.command|, Int32Bytes(t.seqno) + s4);
    Int32Front(t.seqno, s4);
    LengthRoundTrip(|t.deps|, s5);
    DepsRoundTrip(t.deps, |t.deps|, suffix);
    assert t.command[..|t.command|] == t.command && t.deps[..|t.deps|] == t.deps;
  }

  lemma HeaderRoundTrip(t: Body, suffix: Bytes)
    ensures Take(Header(t) + suffix, 16) == Some(Read(Header(t), suffix))
    ensures var h := Header(t);
      |h| == 16 && Int32Of(h[..4]) == t.leaderId && Int32Of(h[4..8]) == t.replica && Int32Of(h[8..12]) == t.instance
      && Int32Of(h[12..]) == t.ballot
  {
    hide Int32Of, Int32Bytes;
    var h := Header(t);
    TakeFront(h, suffix);
    assert h[..4] == Int32Bytes(t.leaderId) && h[4..8] == Int32Bytes(t.replica);
    assert h[8..12] == Int32Bytes(t.instance) && h[12..] == Int32Bytes(t.ballot);
    Int32RoundTrip(t.leaderId);
    Int32RoundTrip(t.replica);
    Int32RoundTrip(t.instance);
    Int32RoundTrip(t.ballot);
  }

  // ---------------------------------------------------------------- the bytes, written out

  /** Four bytes as an unsigned number, the lowest first. */
  function Weight(b0: int, b1: int, b2: int, b3: int): int {
    b0 + 0x100 * b1 + 0x1_0000 * b2 + 0x100_0000 * b3
  }

  lemma LowIsLittleEndian(x: int)
    ensures var b := Low32(x);
      0 <= Weight(b[0], b[1], b[2], b[3]) < 0x1_0000_0000 && x == Weight(b[0], b[1], b[2], b[3]) + 0x1_0000_0000 * Shr32(x)
  {
    hide Low32, Shr32;
    Digits(x);
  }

  /** An int32 goes out in two's complement, its lowest byte first. */
  lemma Int32IsLittleEndian(x: Int32)
    ensures var b := Int32Bytes(x);
      Weight(b[0], b[1], b[2], b[3]) == if x >= 0 then x else x + 0x1_0000_0000
  {
    hide Low32, Shr32, Weight;
    LowIsLittleEndian(x);
  }

  /** So does a key, in eight bytes. */
  lemma KeyIsLittleEndian(k: Key)
    ensures var b := KeyBytes(k);
      Weight(b[0], b[1], b[2], b[3]) + 0x1_0000_0000 * Weight(b[4], b[5], b[6], b[7])
        == if k >= 0 then k else k + 0x1_0000_0000_0000_0000
  {
    hide Low32, Shr32, Weight;
    LowIsLittleEndian(k);
    LowIsLittleEndian(Shr32(k));
    KeyTop(k, Shr32(k), Shr32(Shr32(k)));
  }

  lemma KeyTop(k: Key, high: int, top: int)
    requires 0 <= k - 0x1_0000_0000 * high < 0x1_0000_0000 && 0 <= high - 0x1_0000_0000 * top < 0x1_0000_0000
    ensures top == if k >= 0 then 0 else -1
  {
  }

  /** Where the fields of a command are: operation, key, length in two bytes, two zero bytes, value. */
  lemma CommandLayout(c: Command)
    requires Short(c.v)
    ensures var b := CommandBytes(c);
      && |b| == 13 + |c.v| && b[0] == c.op && b[1..9] == KeyBytes(c.k)
      && b[9] as int + 0x100 * b[10] as int == |c.v| && b[11] == b[12] == 0 && b[13..] == c.v
  {
    hide KeyBytes;
    assert CommandBytes(c)[9..] == ValueBytes(c.v);
    assert CommandBytes(c)[9..][4..] == c.v;
  }

  /** Where the fixed fields of a message are. A message without commands and dependencies takes 22 bytes. */
  lemma MessageLayout(t: Body)
    ensures var b := BodyBytes(t);
      && |b| >= 16 && b[..4] == Int32Bytes(t.leaderId) && b[4..8] == Int32Bytes(t.replica)
      && b[8..12] == Int32Bytes(t.instance) && b[12..16] == Int32Bytes(t.ballot)
      && (t.command == [] && t.deps == [] ==> b[16..] == [0] + Int32Bytes(t.seqno) + [0])
  {
    hide Int32Bytes;
    var b, h := BodyBytes(t), Header(t);
    assert b[..16] == h;
    assert b[..4] == b[..16][..4] && b[4..8] == b[..16][4..8] && b[8..12] == b[..16][8..12] && b[12..16] == b[..16][12..16];
    if t.command == [] && t.deps == [] {
      assert b == h + ([0] + Int32Bytes(t.seqno) + [0]);
    }
  }
}
