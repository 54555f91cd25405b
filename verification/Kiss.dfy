/** KISS framing (backend/src/ingestion/adapters/kiss.py; section 2 of the
    KISS TNC protocol). */
module Kiss {
  import opened Basics

  newtype byte = x: int | 0 <= x < 256

  const FEND: byte := 0xC0
  const FESC: byte := 0xDB
  const TFEND: byte := 0xDC
  const TFESC: byte := 0xDD

  // ---------------------------------------------------------------------
  // The protocol: how a sender may encode bytes
  // ---------------------------------------------------------------------

  /** What one byte is sent as. */
  function EscapeByte(b: byte): seq<byte> {
    if b == FEND then [FESC, TFEND] else if b == FESC then [FESC, TFESC] else [b]
  }

  function Escape(xs: seq<byte>): seq<byte> {
    if xs == [] then [] else EscapeByte(xs[0]) + Escape(xs[1..])
  }

  /** The first `n` bytes of `data` decode to `out`. */
  ghost predicate Decodes(data: seq<byte>, out: seq<byte>)
    decreases |data|
  {
    if data == [] then out == []
    else if data[0] == FESC then
      |data| >= 2 && out != []
      && ((data[1] == TFEND && out[0] == FEND) || (data[1] == TFESC && out[0] == FESC))
      && Decodes(data[2..], out[1..])
    else out != [] && out[0] == data[0] && Decodes(data[1..], out[1..])
  }

  /** Reading from the left, some escape is dangling or unknown. */
  predicate BadEscape(data: seq<byte>)
    decreases |data|
  {
    if data == [] then false
    else if data[0] == FESC then |data| == 1 || data[1] !in {TFEND, TFESC} || BadEscape(data[2..])
    else BadEscape(data[1..])
  }

  /** Decoding step by step, for the loop below. */
  function Unescaped(data: seq<byte>): Result<seq<byte>>
    decreases |data|
  {
    if data == [] then Success([])
    else if data[0] == FESC then
      if |data| == 1 || data[1] !in {TFEND, TFESC} then Failure else
      match Unescaped(data[2..])
      case Failure => Failure
      case Success(rest) => Success([if data[1] == TFEND then FEND else FESC] + rest)
    else match Unescaped(data[1..])
         case Failure => Failure
         case Success(rest) => Success([data[0]] + rest)
  }

  function Prefixed(out: seq<byte>, r: Result<seq<byte>>): Result<seq<byte>> {
    match r case Failure => Failure case Success(rest) => Success(out + rest)
  }

  lemma DecodesIsUnescaped(data: seq<byte>, out: seq<byte>)
    ensures Decodes(data, out) <==> Unescaped(data) == Success(out)
    decreases |data|
  {
    if data != [] {
      var n := if data[0] == FESC then 2 else 1;
      if n <= |data| {
        if out != [] {
          DecodesIsUnescaped(data[n..], out[1..]);
          assert out == [out[0]] + out[1..];
        }
      }
    }
  }

  lemma BadEscapesFail(data: seq<byte>)
    ensures BadEscape(data) <==> Unescaped(data) == Failure
    decreases |data|
  {
  }

  // ---------------------------------------------------------------------
  // The adapter
  // ---------------------------------------------------------------------

  /** _unescape: decodes, and fails exactly on a dangling or unknown escape. */
  method Unescape(data: seq<byte>) returns (r: Result<seq<byte>>)
    ensures r == Failure <==> BadEscape(data)
    ensures r.Success? ==> Decodes(data, r.value)
  {
    var result: seq<byte> := [];
    var i := 0;
    ghost var goal := Unescaped(data);
    BadEscapesFail(data);
    assert data[0..] == data;
    assert goal.Success? ==> [] + goal.value == goal.value;
    while i < |data|
      invariant 0 <= i <= |data|
      invariant goal == Prefixed(result, Unescaped(data[i..]))
    {
      var b := data[i];
      assert data[i..][1..] == data[i + 1..];
      if b == FESC {
        if i + 1 >= |data| {
          return Failure;
        }
        assert data[i..][2..] == data[i + 2..];
        var next := data[i + 1];
        if next == TFEND {
          result := result + [FEND];
        } else if next == TFESC {
          result := result + [FESC];
        } else {
          return Failure;
        }
        i := i + 2;
      } else {
        result := result + [b];
        i := i + 1;
      }
      Reassociate(result, data[i..]);
    }
    assert data[i..] == [] && result + [] == result;
    DecodesIsUnescaped(data, result);
    return Success(result);
  }

  lemma Reassociate(out: seq<byte>, rest: seq<byte>)
    ensures out != [] && Unescaped(rest).Success? ==>
              out + Unescaped(rest).value == out[..|out| - 1] + ([out[|out| - 1]] + Unescaped(rest).value)
  {
  }

  /** Leading FENDs dropped. */
  function TrimLeft(data: seq<byte>): seq<byte> {
    if data != [] && data[0] == FEND then TrimLeft(data[1..]) else data
  }

  /** Trailing FENDs dropped. */
  function TrimRight(data: seq<byte>): seq<byte> {
    if data != [] && data[|data| - 1] == FEND then TrimRight(data[..|data| - 1]) else data
  }

  /** What a frame carries. */
  function Stripped(raw: seq<byte>): Result<seq<byte>> {
    var data := TrimRight(TrimLeft(raw));
    if |raw| < 3 || data == [] || data[0] % 16 != 0 then Failure else Unescaped(data[1..])
  }

  /** _strip_kiss */
  method StripKiss(raw: seq<byte>) returns (r: Result<seq<byte>>)
    ensures r == Stripped(raw)
  {
    if |raw| < 3 {
      return Failure;
    }
    var data := raw;
    while data != [] && data[0] == FEND
      invariant TrimLeft(data) == TrimLeft(raw)
    {
      data := data[1..];
    }
    while data != [] && data[|data| - 1] == FEND
      invariant TrimRight(data) == TrimRight(TrimLeft(raw))
    {
      data := data[..|data| - 1];
    }
    if data == [] {
      return Failure;
    }
    if data[0] % 16 != 0 {
      return Failure;
    }
    r := Unescape(data[1..]);
    BadEscapesFail(data[1..]);
    if r.Success? {
      DecodesIsUnescaped(data[1..], r.value);
    }
  }

  // ---------------------------------------------------------------------
  // Round trip
  // ---------------------------------------------------------------------

  /** Escaping is undone, and leaves no FEND. */
  lemma {:induction false} UnescapeEscape(xs: seq<byte>)
    ensures Unescaped(Escape(xs)) == Success(xs) && FEND !in Escape(xs)
  {
    if xs != [] {
      UnescapeEscape(xs[1..]);
      var e := EscapeByte(xs[0]);
      assert Escape(xs)[|e|..] == Escape(xs[1..]);
      assert xs == [xs[0]] + xs[1..];
    }
  }

  /** Without a raw FEND, the escaped form is the only one that decodes to xs. */
  lemma {:induction false} EscapeIsUnique(data: seq<byte>, xs: seq<byte>)
    requires FEND !in data
    ensures Unescaped(data) == Success(xs) <==> data == Escape(xs)
    decreases |data|
  {
    UnescapeEscape(xs);
    if data != [] && Unescaped(data) == Success(xs) {
      var n := if data[0] == FESC then 2 else 1;
      var rest := Unescaped(data[n..]).value;
      EscapeIsUnique(data[n..], rest);
      assert xs == [xs[0]] + rest && xs[1..] == rest;
      assert data == data[..n] + data[n..];
      assert data[..n] == EscapeByte(xs[0]);
    }
  }

  function Fends(n: nat): seq<byte> {
    if n == 0 then [] else [FEND] + Fends(n - 1)
  }

  function Frame(m: nat, cmd: byte, xs: seq<byte>, n: nat): seq<byte> {
    Fends(m) + [cmd] + Escape(xs) + Fends(n)
  }

  lemma {:induction false} FendsTrimLeft(m: nat, data: seq<byte>)
    ensures TrimLeft(Fends(m) + data) == TrimLeft(data)
  {
    if m > 0 {
      FendsTrimLeft(m - 1, data);
      assert (Fends(m) + data)[1..] == Fends(m - 1) + data;
    } else {
      assert Fends(0) + data == data;
    }
  }

  lemma {:induction false} FendsCommute(n: nat)
    ensures Fends(n) + [FEND] == [FEND] + Fends(n)
  {
    if n > 0 {
      FendsCommute(n - 1);
      assert Fends(n) + [FEND] == [FEND] + (Fends(n - 1) + [FEND]);
    }
  }

  lemma TrimRightOne(data: seq<byte>)
    ensures TrimRight(data + [FEND]) == TrimRight(data)
  {
    assert (data + [FEND])[..|data + [FEND]| - 1] == data;
  }

  lemma {:induction false} FendsTrimRight(n: nat, data: seq<byte>)
    ensures TrimRight(data + Fends(n)) == TrimRight(data)
  {
    hide TrimRight;
    if n > 0 {
      FendsTrimRight(n - 1, data);
      FendsCommute(n - 1);
      assert data + Fends(n) == data + Fends(n - 1) + [FEND];
      TrimRightOne(data + Fends(n - 1));
    } else {
      assert data + Fends(0) == data;
    }
  }

  lemma {:induction false} FendsLength(n: nat)
    ensures |Fends(n)| == n
  {
    if n > 0 { FendsLength(n - 1); }
  }

  lemma TrimRightEscaped(cmd: byte, xs: seq<byte>)
    requires cmd != FEND
    ensures TrimRight([cmd] + Escape(xs)) == [cmd] + Escape(xs)
  {
    UnescapeEscape(xs);
    var data := [cmd] + Escape(xs);
    assert data[|data| - 1] != FEND;
  }

  /** The four bytes that the escape is made of. */
  lemma EscapedBytes(b: byte)
    ensures Escape([b]) == if b == 0xC0 then [0xDB, 0xDC] else if b == 0xDB then [0xDB, 0xDD] else [b]
  {
    assert Escape([b]) == EscapeByte(b) + Escape([]);
  }

  /** From a to b lies what is between the delimiters. */
  ghost predicate IsCore(raw: seq<byte>, a: nat, b: nat) {
    && a < b <= |raw| && raw[a] != 0xC0 && raw[b - 1] != 0xC0
    && forall i :: 0 <= i < a || b <= i < |raw| ==> raw[i] == 0xC0
  }

  lemma {:induction false} TrimLeftIs(data: seq<byte>, a: nat)
    requires a <= |data| && (a < |data| ==> data[a] != FEND) && forall i :: 0 <= i < a ==> data[i] == FEND
    ensures TrimLeft(data) == data[a..]
    decreases a
  {
    if a > 0 { TrimLeftIs(data[1..], a - 1); }
  }

  lemma {:induction false} TrimRightIs(data: seq<byte>, b: nat)
    requires b <= |data| && (b > 0 ==> data[b - 1] != FEND) && forall i :: b <= i < |data| ==> data[i] == FEND
    ensures TrimRight(data) == data[..b]
    decreases |data|
  {
    if b < |data| {
      TrimRightIs(data[..|data| - 1], b);
      assert data[..|data| - 1][..b] == data[..b];
    } else {
      assert data[..b] == data;
    }
  }

  /** A frame is refused if it is shorter than three bytes, or all delimiters, or
      not of command 0; otherwise it carries what the bytes after the command decode to. */
  lemma StripsExactly(raw: seq<byte>, a: nat, b: nat)
    requires IsCore(raw, a, b) || forall i :: 0 <= i < |raw| ==> raw[i] == 0xC0
    ensures Stripped(raw) ==
            if |raw| < 3 || !IsCore(raw, a, b) || raw[a] % 16 != 0 then Failure else Unescaped(raw[a + 1..b])
  {
    if IsCore(raw, a, b) {
      TrimLeftIs(raw, a);
      TrimRightIs(raw[a..], b - a);
      assert raw[a..][..b - a] == raw[a..b] && raw[a..b][1..] == raw[a + 1..b];
    } else {
      TrimLeftIs(raw, |raw|);
    }
  }

  /** A frame around any bytes strips back to them exactly for the command
      bytes with low nibble 0 other than 0xC0, which reads as a delimiter. */
  lemma RoundTrip(m: nat, cmd: byte, xs: seq<byte>, n: nat)
    requires m >= 1 && n >= 1
    ensures Stripped(Frame(m, cmd, xs, n)) == Success(xs) <==> cmd % 16 == 0 && cmd != FEND
  {
    hide Unescaped, Escape, TrimRight;
    var body := [cmd] + Escape(xs);
    assert Frame(m, cmd, xs, n) == Fends(m) + (body + Fends(n));
    FendsLength(m);
    FendsLength(n);
    FendsTrimLeft(m, body + Fends(n));
    UnescapeEscape(xs);
    if cmd != FEND {
      assert TrimLeft(body + Fends(n)) == body + Fends(n);
      FendsTrimRight(n, body);
      TrimRightEscaped(cmd, xs);
      assert body[1..] == Escape(xs);
    } else {
      DelimiterCommand(xs, n);
      assert body + Fends(n) == Fends(1) + (Escape(xs) + Fends(n));
      FendsTrimLeft(1, Escape(xs) + Fends(n));
    }
  }

  lemma TrimEscaped(xs: seq<byte>, n: nat)
    ensures TrimRight(TrimLeft(Escape(xs) + Fends(n))) == Escape(xs)
  {
    UnescapeEscape(xs);
    var e := Escape(xs);
    if e == [] {
      FendsTrimLeft(n, []);
      assert Fends(n) + [] == Fends(n) && e + Fends(n) == Fends(n);
    } else {
      assert e[0] in e && e[|e| - 1] in e;
      assert TrimLeft(e + Fends(n)) == e + Fends(n);
      FendsTrimRight(n, e);
    }
  }

  /** When the command byte is taken for a delimiter, the payload's first byte
      is taken for the command. */
  lemma DelimiterCommand(xs: seq<byte>, n: nat)
    ensures var data := TrimRight(TrimLeft(Escape(xs) + Fends(n)));
            data == Escape(xs) && (data != [] && data[0] % 16 == 0 ==> Unescaped(data[1..]) != Success(xs))
  {
    TrimEscaped(xs, n);
    if xs != [] && Escape(xs)[0] % 16 == 0 {
      hide Unescaped;
      assert Escape(xs) == [xs[0]] + Escape(xs[1..]);
      UnescapeEscape(xs[1..]);
    }
  }
}
