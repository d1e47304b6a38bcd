// ClientServerChannel: messages on a byte stream, each after its length as a base 128 varint.
module Channel {
  import opened Wrappers

  type Byte = b: nat | b < 256

  const LIMIT := 0x1000_0000  // 4 groups of 7 bits

  function Pow128(n: nat): nat {
    if n == 0 then 1 else 128 * Pow128(n - 1)
  }

  // WriteVarint32: groups of 7 bits, lowest first, each but the last with the high bit set.
  function Encode(v: nat): seq<Byte> {
    if v < 128 then [v] else [v % 128 + 128] + Encode(v / 128)
  }

  // The prefix of a stream, of which at most `left` more bytes may count, after the value so far. A byte beyond the
  // end of the stream reads as zero.
  function Scan(s: seq<Byte>, sofar: nat, scale: nat, left: nat): (Option<nat>, seq<Byte>)
    decreases left
  {
    var b := if s == [] then 0 else s[0];
    var rest := if s == [] then [] else s[1..];
    if left == 0 then (None, rest)
    else
      var v := sofar + b % 128 * scale;
      if b >= 128 then Scan(rest, v, scale * 128, left - 1) else (Some(v), rest)
  }

  function ReadPrefix(s: seq<Byte>): (Option<nat>, seq<Byte>) {
    Scan(s, 0, 1, 4)
  }

  // What the reader takes for the stream: one indeterminate byte if the stream is at its end.
  function Seen(s: seq<Byte>, stale: Byte): seq<Byte> {
    if s == [] then [stale] else s
  }

  // One message: its prefix, then as many bytes as the prefix says.
  function Read(s: seq<Byte>): (Option<seq<Byte>>, seq<Byte>) {
    var (size, rest) := ReadPrefix(s);
    if size.None? then (None, rest)
    else if |rest| < size.value then (None, [])
    else (Some(rest[..size.value]), rest[size.value..])
  }

  function Frame(body: seq<Byte>): seq<Byte> {
    Encode(|body|) + body
  }

  function Frames(bodies: seq<seq<Byte>>): seq<Byte> {
    if bodies == [] then [] else Frame(bodies[0]) + Frames(bodies[1..])
  }

  // n messages in a row, or none if one of them fails.
  function ReadMany(s: seq<Byte>, n: nat): Option<(seq<seq<Byte>>, seq<Byte>)> {
    if n == 0 then Some(([], s))
    else
      var (body, rest) := Read(s);
      if body.None? then None
      else
        var more := ReadMany(rest, n - 1);
        if more.None? then None else Some(([body.value] + more.value.0, more.value.1))
  }

  class ClientServerChannel {
    var incoming: seq<Byte>
    var outgoing: seq<Byte>

    constructor (incoming: seq<Byte>)
      ensures this.incoming == incoming && outgoing == []
    {
      this.incoming, outgoing := incoming, [];
    }

    // recv of one byte; at the end of the stream the buffer keeps what it holds.
    method Recv(buffer: Byte) returns (b: Byte)
      modifies `incoming
      ensures b == if old(incoming) == [] then buffer else old(incoming)[0]
      ensures incoming == if old(incoming) == [] then [] else old(incoming)[1..]
    {
      b := buffer;
      if incoming != [] {
        b := incoming[0];
        incoming := incoming[1..];
      }
    }

    // `stale` is what the uninitialised first byte holds; at the end of the stream it is taken for the prefix.
    method ReadVarintPrefix(stale: Byte) returns (r: Option<nat>)
      modifies `incoming
      ensures (r, incoming) == ReadPrefix(Seen(old(incoming), stale))
    {
      ghost var seen := Seen(incoming, stale);
      var numBytes := 1;
      var current := Recv(stale);
      var value: nat := current % 128;
      assert Pow128(1) == 128;
      while current >= 128
        invariant 1 <= numBytes <= 4
        invariant ReadPrefix(seen) ==
                  if current >= 128 then Scan(incoming, value, Pow128(numBytes), 4 - numBytes)
                  else (Some(value), incoming)
        decreases 4 - numBytes, current
      {
        current := Recv(0);
        numBytes := numBytes + 1;
        if numBytes > 4 {
          return None;
        }
        value := value + current % 128 * Pow128(numBytes - 1);
      }
      r := Some(value);
    }

    // The part that all read methods share; they end the process, or report UNDEF, on None.
    method ReadMessage(stale: Byte) returns (r: Option<seq<Byte>>)
      modifies `incoming
      ensures (r, incoming) == Read(Seen(old(incoming), stale))
    {
      var size := ReadVarintPrefix(stale);
      if size.None? {
        return None;
      }
      if |incoming| < size.value {
        incoming := [];
        return None;
      }
      r := Some(incoming[..size.value]);
      incoming := incoming[size.value..];
    }

    // The part that all write methods share.
    method WriteMessage(body: seq<Byte>)
      modifies `outgoing
      ensures outgoing == old(outgoing) + Frame(body)
    {
      outgoing := outgoing + Encode(|body|) + body;
    }
  }

  // ---------- what the framing promises ----------

  lemma Carry(v: nat, scale: nat)
    ensures v % 128 * scale + v / 128 * (scale * 128) == v * scale
  {
    assert v == v / 128 * 128 + v % 128;
  }

  lemma {:induction false} ScanEncoded(v: nat, rest: seq<Byte>, sofar: nat, scale: nat, left: nat)
    requires left > 0 || v > 0
    ensures v < Pow128(left) ==> Scan(Encode(v) + rest, sofar, scale, left) == (Some(sofar + v * scale), rest)
    ensures v >= Pow128(left) ==> Scan(Encode(v) + rest, sofar, scale, left).0 == None
    decreases left
  {
    var s := Encode(v) + rest;
    if left > 0 {
      if v < 128 {
        assert s[0] == v && s[1..] == rest;
        assert Pow128(left) >= 128 by { AtLeastOne(left - 1); }
      } else {
        assert s[0] == v % 128 + 128 && s[1..] == Encode(v / 128) + rest;
        ScanEncoded(v / 128, rest, sofar + v % 128 * scale, scale * 128, left - 1);
        Carry(v, scale);
      }
    }
  }

  lemma {:induction false} AtLeastOne(n: nat)
    ensures Pow128(n) >= 1
  {
    if n > 0 {
      AtLeastOne(n - 1);
    }
  }

  // The reader accepts the canonical prefix of v exactly when v < 2^28, and then leaves the rest untouched.
  lemma PrefixRoundTrip(v: nat, rest: seq<Byte>)
    ensures v < LIMIT ==> ReadPrefix(Encode(v) + rest) == (Some(v), rest)
    ensures v >= LIMIT ==> ReadPrefix(Encode(v) + rest).0 == None
  {
    ScanEncoded(v, rest, 0, 1, 4);
    assert Pow128(4) == 128 * Pow128(3) == 128 * 128 * Pow128(2) == 128 * 128 * 128 * Pow128(1) == LIMIT;
  }

  lemma {:induction false} PowGrows(n: nat, n': nat)
    requires n <= n'
    ensures Pow128(n) <= Pow128(n')
    decreases n'
  {
    if n < n' {
      PowGrows(n, n' - 1);
    }
  }

  lemma {:induction false} ScanIsBounded(s: seq<Byte>, sofar: nat, n: nat, left: nat)
    requires sofar < Pow128(n)
    ensures var r := Scan(s, sofar, Pow128(n), left).0; r.Some? ==> r.value < Pow128(n + left)
    decreases left
  {
    if left > 0 {
      var b: Byte := if s == [] then 0 else s[0];
      NextGroup(sofar, b, n);
      if b >= 128 {
        ScanIsBounded(if s == [] then [] else s[1..], sofar + b % 128 * Pow128(n), n + 1, left - 1);
      } else {
        PowGrows(n + 1, n + left);
      }
    }
  }

  lemma NextGroup(sofar: nat, b: Byte, n: nat)
    requires sofar < Pow128(n)
    ensures sofar + b % 128 * Pow128(n) < Pow128(n + 1) == Pow128(n) * 128
  {
    BelowNextDigit(sofar, b % 128, Pow128(n));
  }

  lemma BelowNextDigit(x: nat, digit: nat, p: nat)
    requires x < p && digit <= 127
    ensures x + digit * p < p * 128
  {
    assert digit * p + (127 - digit) * p == 127 * p;
    assert (127 - digit) * p >= 0;
  }

  lemma {:induction false} ScanConsumes(s: seq<Byte>, sofar: nat, scale: nat, left: nat)
    ensures var rest := Scan(s, sofar, scale, left).1; |rest| <= |s| <= |rest| + left + 1 && rest == s[|s| - |rest|..]
    decreases left
  {
    if left > 0 && s != [] && s[0] >= 128 {
      ScanConsumes(s[1..], sofar + s[0] % 128 * scale, scale * 128, left - 1);
    } else if s != [] {
      assert s[1..] == s[|s| - |s[1..]|..];
    }
  }

  // On any stream at all the reader takes at most 5 bytes and returns less than 2^28.
  lemma PrefixIsBounded(s: seq<Byte>)
    ensures var (r, rest) := ReadPrefix(s);
      && (r.Some? ==> r.value < LIMIT)
      && |rest| <= |s| <= |rest| + 5
      && rest == s[|s| - |rest|..]
  {
    ScanIsBounded(s, 0, 0, 4);
    ScanConsumes(s, 0, 1, 4);
    assert Pow128(4) == 128 * Pow128(3) == 128 * 128 * Pow128(2) == 128 * 128 * 128 * Pow128(1) == LIMIT;
  }

  lemma OneFrame(body: seq<Byte>, rest: seq<Byte>)
    ensures |body| < LIMIT ==> Read(Frame(body) + rest) == (Some(body), rest)
    ensures |body| >= LIMIT ==> Read(Frame(body) + rest).0 == None
  {
    PrefixRoundTrip(|body|, body + rest);
    assert Frame(body) + rest == Encode(|body|) + (body + rest);
  }

  // A message whose body is cut off is not delivered, and nothing is left of it.
  lemma TruncatedMessageFails(body: seq<Byte>, n: nat)
    requires |body| < LIMIT && n < |body|
    ensures Read(Encode(|body|) + body[..n]) == (None, [])
  {
    PrefixRoundTrip(|body|, body[..n]);
  }

  predicate AllShort(bodies: seq<seq<Byte>>) {
    bodies == [] || (|bodies[0]| < LIMIT && AllShort(bodies[1..]))
  }

  // Reading recovers a list of messages, and what follows them, exactly when all are shorter than 2^28 bytes.
  lemma {:induction false} FramesRoundTrip(bodies: seq<seq<Byte>>, rest: seq<Byte>)
    ensures ReadMany(Frames(bodies) + rest, |bodies|) == if AllShort(bodies) then Some((bodies, rest)) else None
  {
    if bodies == [] {
      assert Frames(bodies) + rest == rest;
    } else {
      hide Read, Frame;
      assert Frames(bodies) + rest == Frame(bodies[0]) + (Frames(bodies[1..]) + rest);
      OneFrame(bodies[0], Frames(bodies[1..]) + rest);
      FramesRoundTrip(bodies[1..], rest);
      assert bodies == [bodies[0]] + bodies[1..];
    }
  }
}
