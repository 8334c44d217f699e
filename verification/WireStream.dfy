/** Marshal and Unmarshal over streams, statement by statement (epaxos/defs.go, state/state.go). */
module WireStream {
  import opened Options
  import opened State
  import opened Wire

  class Writer {
    var out: Bytes

    constructor ()
      ensures out == []
    {
      out := [];
    }

    method Write(b: Bytes)
      modifies this
      ensures out == old(out) + b
    {
      out := out + b;
    }
  }

  class Reader {
    var rest: Bytes

    constructor (s: Bytes)
      ensures rest == s
    {
      rest := s;
    }

    /** io.ReadFull: a stream that is too short is read to its end. */
    method ReadFull(n: nat) returns (b: Option<Bytes>)
      modifies this
      ensures match Take(old(rest), n)
              case None => b == None && rest == []
              case Some(r) => b == Some(r.value) && rest == r.rest
    {
      if |rest| < n {
        rest := [];
        return None;
      }
      b := Some(rest[..n]);
      rest := rest[n..];
    }

    /** binary.ReadVarint. */
    method ReadLength() returns (n: Option<int>)
      modifies this
      ensures match Wire.ReadVarint(old(rest))
              case None => n == None
              case Some(r) => n == Some(r.value) && rest == r.rest
    {
      match Wire.ReadVarint(rest)
      case None =>
        rest := [];
        n := None;
      case Some(r) =>
        rest := r.rest;
        n := Some(r.value);
    }
  }

  method MarshalCommand(c: Command, w: Writer)
    modifies w
    ensures w.out == old(w.out) + CommandBytes(c)
  {
    w.Write([c.op]);
    w.Write(KeyBytes(c.k));
    var bs: Bytes := [LowByte(|c.v|), LowByte(|c.v| / 0x100), 0, 0];
    w.Write(bs);
    w.Write(c.v);
  }

  method Marshal(t: Body, w: Writer)
    modifies w
    ensures w.out == old(w.out) + BodyBytes(t)
  {
    hide Header, Length, CommandBytes, Int32Bytes;
    ghost var out0 := w.out;
    w.Write(Header(t));
    w.Write(Length(|t.command|));
    ghost var out1 := w.out;
    for i := 0 to |t.command|
      invariant w.out == out1 + CommandsBytes(t.command, i)
    {
      MarshalCommand(t.command[i], w);
    }
    w.Write(Int32Bytes(t.seqno));
    w.Write(Length(|t.deps|));
    ghost var out2 := w.out;
    for i := 0 to |t.deps|
      invariant w.out == out2 + DepsBytes(t.deps, i)
    {
      w.Write(Int32Bytes(t.deps[i]));
    }
  }

  /** A command that cannot be read leaves the stream at its end. */
  method UnmarshalCommand(r: Reader) returns (c: Command)
    modifies r
    ensures match ReadCommand(old(r.rest))
            case None => r.rest == []
            case Some(x) => c == x.value && r.rest == x.rest
  {
    hide Int32Of, KeyOf;
    c := Command(NONE, 0, []);
    var op := r.ReadFull(1);
    if op.None? {
      return;
    }
    c := c.(op := op.value[0]);
    var k := r.ReadFull(8);
    if k.None? {
      return;
    }
    c := c.(k := KeyOf(k.value));
    var h := r.ReadFull(4);
    if h.None? {
      return;
    }
    var v := r.ReadFull(h.value[0] as int + 0x100 * h.value[1] as int);
    if v.None? {
      return;
    }
    c := c.(v := v.value);
  }

  /** The loop over the commands of a message: errors are ignored. */
  method UnmarshalCommands(r: Reader, n: nat) returns (cs: seq<Command>)
    modifies r
    ensures match ReadCommands(old(r.rest), n)
            case None => r.rest == []
            case Some(x) => cs == x.value && r.rest == x.rest
  {
    hide ReadCommand;
    cs := [];
    ghost var s := r.rest;
    for i := 0 to n
      invariant match ReadCommands(s, i)
                case None => r.rest == []
                case Some(x) => cs == x.value && r.rest == x.rest
    {
      EndOfStream();
      var c := UnmarshalCommand(r);
      cs := cs + [c];
    }
  }

  lemma EndOfStream()
    ensures ReadCommand([]) == None && ReadInt32([]) == None
  {
  }

  method UnmarshalDeps(r: Reader, n: nat) returns (deps: Option<seq<Int32>>)
    modifies r
    ensures match ReadDeps(old(r.rest), n)
            case None => deps == None
            case Some(x) => deps == Some(x.value) && r.rest == x.rest
  {
    hide Int32Of;
    var ds: seq<Int32> := [];
    ghost var s := r.rest;
    for i := 0 to n
      invariant ReadDeps(s, i) == Some(Read(ds, r.rest))
    {
      var b := r.ReadFull(4);
      if b.None? {
        NothingMore(s, i + 1, n);
        return None;
      }
      ds := ds + [Int32Of(b.value)];
    }
    return Some(ds);
  }

  lemma {:induction false} NothingMore(s: Bytes, i: nat, n: nat)
    requires i <= n && ReadDeps(s, i).None?
    ensures ReadDeps(s, n).None?
    decreases n - i
  {
    if i < n {
      NothingMore(s, i + 1, n);
    }
  }

  /** The result of Unmarshal: a message, an error, or the panic of an allocation of negative length. */
  method Unmarshal(r: Reader) returns (t: Option<Body>, panicked: bool)
    modifies r
    ensures match ReadBody(old(r.rest))
            case Done(body, rest) => t == Some(body) && !panicked && r.rest == rest
            case Failed => t == None && !panicked
            case Panicked => panicked
  {
    hide ReadVarint, Int32Of, ReadCommands, ReadDeps;
    EndOfStream();
    t, panicked := None, false;
    var h := r.ReadFull(16);
    if h.None? {
      return;
    }
    var alen1 := r.ReadLength();
    if alen1.None? {
      return;
    }
    if alen1.value < 0 {
      panicked := true;
      return;
    }
    var command := UnmarshalCommands(r, alen1.value);
    var seqno := r.ReadFull(4);
    if seqno.None? {
      return;
    }
    var alen2 := r.ReadLength();
    if alen2.None? {
      return;
    }
    if alen2.value < 0 {
      panicked := true;
      return;
    }
    var deps := UnmarshalDeps(r, alen2.value);
    if deps.None? {
      return;
    }
    var b := h.value;
    t := Some(Body(Int32Of(b[..4]), Int32Of(b[4..8]), Int32Of(b[8..12]), Int32Of(b[12..]), command,
                   Int32Of(seqno.value), deps.value));
  }

  /** Writing a message and reading it back. */
  method SendAndReceive(t: Body, suffix: Bytes) returns (back: Option<Body>, rest: Bytes, panicked: bool)
    requires Countable(t)
    ensures back == Some(t) && rest == suffix && !panicked <==> AllShort(t.command)
  {
    hide ReadBody, BodyBytes;
    var w := new Writer();
    Marshal(t, w);
    RoundTrip(t, suffix);
    ReadsShort(BodyBytes(t) + suffix);
    assert [] + BodyBytes(t) == BodyBytes(t);
    var r := new Reader(w.out + suffix);
    back, panicked := Unmarshal(r);
    rest := r.rest;
  }
}
