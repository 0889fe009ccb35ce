/** PostgreSQL's wire format as the gateway reads and writes it (internal/proxy/proxy.go and
    internal/proxy/auth.go): startup parameters, message framing, and the relay of the startup phase with
    its cancel keys. */
module Wire {
  import opened Text

  type Byte = b: int | 0 <= b < 256

  /** A Go string that is not read as text. */
  type Bytes = seq<Byte>

  const NUL: Byte := 0

  const UINT32 := 0x1_0000_0000

  const PROTOCOL_3_0 := 196608
  const CANCEL_REQUEST := 80877102
  const SSL_REQUEST := 80877103
  const GSS_REQUEST := 80877104

  /** Startup packets longer than this are refused. */
  const MAX_STARTUP := 0x10_0000

  /** Messages longer than this are refused. */
  const MAX_MESSAGE := 0x100_0000

  // ---------------------------------------------------------------- integers

  /** binary.BigEndian.PutUint32 of uint32(n). */
  function Put32(n: nat): (b: Bytes)
    ensures |b| == 4
  {
    var m := n % UINT32;
    var shifted := m / 256;
    [shifted / 256 / 256, shifted / 256 % 256, shifted % 256, m % 256]
  }

  function Digit(high: nat, low: Byte): nat { 256 * high + low }

  function Get32(b: Bytes): (n: nat)
    requires |b| == 4
    ensures n < UINT32
  {
    Digit(Digit(Digit(b[0], b[1]), b[2]), b[3])
  }

  lemma GetPut(n: nat)
    ensures Get32(Put32(n)) == n % UINT32
  {
  }

  lemma PutGet(b: Bytes)
    requires |b| == 4
    ensures Put32(Get32(b)) == b
  {
    var two := Digit(b[0], b[1]);
    var three := Digit(two, b[2]);
    LastDigit(b[0], b[1]);
    LastDigit(two, b[2]);
    LastDigit(three, b[3]);
    assert Get32(b) % UINT32 == Digit(three, b[3]);
    hide Digit;
  }

  lemma LastDigit(high: nat, low: Byte)
    ensures Digit(high, low) / 256 == high && Digit(high, low) % 256 == low
  {
  }

  // ---------------------------------------------------------------- startup parameters

  type Params = map<Bytes, Bytes>

  /** The NUL-terminated strings of `b`; what comes after the last NUL is dropped. */
  function Strings(b: Bytes): seq<Bytes> { StringsFrom([], b) }

  /** Those of `b` when its first string continues `head`. */
  function StringsFrom(head: Bytes, b: Bytes): seq<Bytes>
    decreases |b|
  {
    if b == [] then []
    else if b[0] == NUL then [head] + StringsFrom([], b[1..])
    else StringsFrom(head + [b[0]], b[1..])
  }

  /** Key and value in turn, up to an empty key; a later value of a key replaces an earlier one. */
  function Pairs(parts: seq<Bytes>, m: Params): Params {
    if |parts| < 2 || parts[0] == [] then m else Pairs(parts[2..], m[parts[0] := parts[1]])
  }

  method ParseParams(b: Bytes) returns (params: Params)
    ensures params == Pairs(Strings(b), map[])
  {
    var parts: seq<Bytes> := [];
    var start := 0;
    assert b[0..] == b;
    for i := 0 to |b|
      invariant start <= i
      invariant parts + StringsFrom(b[start..i], b[i..]) == Strings(b)
    {
      assert b[i..][1..] == b[i + 1..];
      if b[i] == NUL {
        assert parts + ([b[start..i]] + StringsFrom([], b[i + 1..])) == (parts + [b[start..i]]) + StringsFrom([], b[i + 1..]);
        parts := parts + [b[start..i]];
        start := i + 1;
        assert b[start..i + 1] == [];
      } else {
        assert b[start..i] + [b[i]] == b[start..i + 1];
      }
    }
    assert parts + [] == parts;
    params := map[];
    var i := 0;
    while i + 1 < |parts|
      invariant 0 <= i <= |parts|
      invariant Pairs(parts[i..], params) == Pairs(parts, map[])
    {
      if parts[i] == [] {
        break;
      }
      assert parts[i..][2..] == parts[i + 2..];
      params := params[parts[i] := parts[i + 1]];
      i := i + 2;
    }
  }

  /** The parameters as written, in the given order of keys. */
  function Listing(order: seq<Bytes>, params: Params): Bytes
    requires forall k :: k in order ==> k in params
  {
    if order == [] then [] else order[0] + [NUL] + params[order[0]] + [NUL] + Listing(order[1..], params)
  }

  /** A StartupMessage (section 55.7 of the PostgreSQL 16 documentation). */
  function Startup(order: seq<Bytes>, params: Params): Bytes
    requires forall k :: k in order ==> k in params
  {
    var body := Put32(PROTOCOL_3_0) + Listing(order, params) + [NUL];
    Put32(4 + |body|) + body
  }

  /** Every key once, in some order. */
  ghost predicate OrderOf(order: seq<Bytes>, params: Params) {
    (forall i, j :: 0 <= i < j < |order| ==> order[i] != order[j]) && forall k :: k in order <==> k in params
  }

  lemma {:induction false} ListingSnoc(order: seq<Bytes>, k: Bytes, params: Params)
    requires k in params && forall x :: x in order ==> x in params
    ensures Listing(order + [k], params) == Listing(order, params) + k + [NUL] + params[k] + [NUL]
  {
    if order == [] {
      assert [k][1..] == [];
      assert k + [NUL] + params[k] + [NUL] + [] == [] + k + [NUL] + params[k] + [NUL];
    } else {
      var x := order[0] + [NUL] + params[order[0]] + [NUL];
      ListingSnoc(order[1..], k, params);
      assert (order + [k])[1..] == order[1..] + [k];
      assert x + (Listing(order[1..], params) + k + [NUL] + params[k] + [NUL])
          == (x + Listing(order[1..], params)) + k + [NUL] + params[k] + [NUL];
    }
  }

  /** buildStartup; the map gives its entries in any order. */
  method BuildStartup(params: Params) returns (out: Bytes)
    ensures exists order :: OrderOf(order, params) && out == Startup(order, params)
  {
    hide Put32;
    var body := Put32(PROTOCOL_3_0);
    var left := params.Keys;
    ghost var order := [];
    while left != {}
      invariant left <= params.Keys
      invariant forall i, j :: 0 <= i < j < |order| ==> order[i] != order[j]
      invariant forall k :: k in order <==> k in params && k !in left
      invariant body == Put32(PROTOCOL_3_0) + Listing(order, params)
      decreases |left|
    {
      var k :| k in left;
      left := left - {k};
      ListingSnoc(order, k, params);
      assert Put32(PROTOCOL_3_0) + (Listing(order, params) + k + [NUL] + params[k] + [NUL])
          == Put32(PROTOCOL_3_0) + Listing(order, params) + k + [NUL] + params[k] + [NUL];
      body := body + k + [NUL] + params[k] + [NUL];
      order := order + [k];
    }
    body := body + [NUL];
    out := Put32(4 + |body|) + body;
    assert OrderOf(order, params) && out == Startup(order, params);
  }

  // ---------------------------------------------------------------- startup round trip

  predicate NulFree(b: Bytes) { NUL !in b }

  predicate Writable(params: Params) {
    forall k :: k in params ==> k != [] && NulFree(k) && NulFree(params[k])
  }

  lemma {:induction false} StringsOfOne(head: Bytes, s: Bytes, rest: Bytes)
    requires NulFree(s)
    ensures StringsFrom(head, s + [NUL] + rest) == [head + s] + StringsFrom([], rest)
    decreases |s|
  {
    var b := s + [NUL] + rest;
    if s == [] {
      assert b[1..] == rest && head + s == head;
    } else {
      StringsOfOne(head + [s[0]], s[1..], rest);
      assert b[1..] == s[1..] + [NUL] + rest && b[0] == s[0];
      assert head + [s[0]] + s[1..] == head + s;
    }
  }

  /** Key and value in turn. */
  function Flat(order: seq<Bytes>, params: Params): seq<Bytes>
    requires forall k :: k in order ==> k in params
  {
    if order == [] then [] else [order[0], params[order[0]]] + Flat(order[1..], params)
  }

  lemma StringsOfEntry(k: Bytes, v: Bytes, rest: Bytes)
    requires NulFree(k) && NulFree(v)
    ensures Strings(k + [NUL] + (v + [NUL] + rest)) == [k, v] + Strings(rest)
  {
    hide StringsFrom;
    StringsOfOne([], v, rest);
    StringsOfOne([], k, v + [NUL] + rest);
    assert [] + k == k && [] + v == v;
    assert [k] + ([v] + Strings(rest)) == [k, v] + Strings(rest);
  }

  lemma StringsOfEnd()
    ensures Strings([NUL]) == [[]]
  {
    StringsOfOne([], [], []);
    assert [NUL] == [] + [NUL] + [];
  }

  lemma {:induction false} StringsOfListing(order: seq<Bytes>, params: Params)
    requires Writable(params) && forall k :: k in order ==> k in params
    ensures Strings(Listing(order, params) + [NUL]) == Flat(order, params) + [[]]
  {
    hide Strings;
    if order == [] {
      StringsOfEnd();
      assert [] + [NUL] == [NUL] && Flat(order, params) + [[]] == [[]];
    } else {
      var k, v := order[0], params[order[0]];
      var rest := Listing(order[1..], params) + [NUL];
      StringsOfListing(order[1..], params);
      StringsOfEntry(k, v, rest);
      assert Listing(order, params) + [NUL] == k + [NUL] + (v + [NUL] + rest);
      assert [k, v] + (Flat(order[1..], params) + [[]]) == Flat(order, params) + [[]];
    }
  }

  lemma {:induction false} PairsOfFlat(order: seq<Bytes>, params: Params, m: Params)
    requires Writable(params) && forall k :: k in order ==> k in params
    requires forall i, j :: 0 <= i < j < |order| ==> order[i] != order[j]
    requires forall k :: k in order ==> k !in m
    ensures Pairs(Flat(order, params) + [[]], m) == m + (map k | k in order :: params[k])
    decreases |order|
  {
    hide Writable;
    var parts := Flat(order, params) + [[]];
    if order == [] {
      assert |parts| == 1;
      assert (map k | k in order :: params[k]) == map[];
    } else {
      var k := order[0];
      KeyIsWritable(params, k);
      PairsOfFlat(order[1..], params, m[k := params[k]]);
      assert parts[2..] == Flat(order[1..], params) + [[]] && parts[0] == k && parts[1] == params[k];
      MapCons(order, params, m);
    }
  }

  lemma KeyIsWritable(params: Params, k: Bytes)
    requires Writable(params) && k in params
    ensures k != []
  {
  }

  lemma MapCons(order: seq<Bytes>, params: Params, m: Params)
    requires order != [] && forall k :: k in order ==> k in params
    ensures m[order[0] := params[order[0]]] + (map x | x in order[1..] :: params[x]) == m + (map x | x in order :: params[x])
  {
    assert forall x :: x in order <==> x == order[0] || x in order[1..];
  }

  lemma {:induction false} StringsAreNulFree(head: Bytes, b: Bytes)
    requires NulFree(head)
    ensures forall s :: s in StringsFrom(head, b) ==> NulFree(s)
    decreases |b|
  {
    if b != [] {
      StringsAreNulFree([], b[1..]);
      if b[0] != NUL {
        StringsAreNulFree(head + [b[0]], b[1..]);
      }
    }
  }

  lemma {:induction false} PairsAreWritable(parts: seq<Bytes>, m: Params)
    requires Writable(m) && forall s :: s in parts ==> NulFree(s)
    ensures Writable(Pairs(parts, m))
  {
    if |parts| >= 2 && parts[0] != [] {
      assert parts[0] in parts && parts[1] in parts;
      PairsAreWritable(parts[2..], m[parts[0] := parts[1]]);
    }
  }

  /** Startup round trip: whatever order the map is written in, reading the parameters back gives the same
      map exactly when no key is empty and no key or value contains a NUL. */
  lemma StartupRoundTrip(order: seq<Bytes>, params: Params)
    requires OrderOf(order, params)
    ensures Pairs(Strings(Startup(order, params)[8..]), map[]) == params <==> Writable(params)
  {
    var listing := Listing(order, params) + [NUL];
    assert Startup(order, params)[8..] == listing by {
      hide Put32; hide Listing;
      var body := Put32(PROTOCOL_3_0) + Listing(order, params) + [NUL];
      assert body == Put32(PROTOCOL_3_0) + listing;
    }
    if Writable(params) {
      StringsOfListing(order, params);
      PairsOfFlat(order, params, map[]);
      assert params == map[] + (map k | k in order :: params[k]);
    }
    StringsAreNulFree([], listing);
    PairsAreWritable(Strings(listing), map[]);
  }

  // ---------------------------------------------------------------- messages

  datatype Msg = Msg(typ: Byte, body: Bytes)

  /** A message on the wire: type, length with itself, body. */
  function Frame(m: Msg): Bytes { [m.typ] + Put32(4 + |m.body|) + m.body }

  function Frames(msgs: seq<Msg>): Bytes {
    if msgs == [] then [] else Frame(msgs[0]) + Frames(msgs[1..])
  }

  predicate Fits(m: Msg) { 4 + |m.body| <= MAX_MESSAGE }

  datatype Read = Message(msg: Msg, rest: Bytes) | BadLength(rest: Bytes) | EndOfStream

  /** What reading one message from a stream finds. */
  function ReadOne(s: Bytes): Read {
    if |s| < 5 then EndOfStream
    else
      var n := Get32(s[1..5]);
      if n < 4 || n > MAX_MESSAGE then BadLength(s[5..])
      else if |s| < 1 + n then EndOfStream
      else Message(Msg(s[0], s[5..1 + n]), s[1 + n..])
  }

  /** One end of a connection: what is still to come from the peer, and what was sent to it. The peer takes
      `room` bytes and then the connection breaks. */
  class Conn {
    const room: nat
    var incoming: Bytes
    var outgoing: Bytes

    constructor (incoming: Bytes, room: nat)
      ensures this.incoming == incoming && outgoing == [] && this.room == room
    {
      this.incoming, outgoing, this.room := incoming, [], room;
    }

    ghost predicate Valid()
      reads this
    {
      |outgoing| <= room
    }

    /** io.ReadFull. */
    method ReadFull(n: nat) returns (r: Option<Bytes>)
      modifies this`incoming
      ensures n <= |old(incoming)| ==> r == Some(old(incoming)[..n]) && incoming == old(incoming)[n..]
      ensures n > |old(incoming)| ==> r.None? && incoming == []
    {
      if n <= |incoming| {
        r := Some(incoming[..n]);
        incoming := incoming[n..];
      } else {
        r := None;
        incoming := [];
      }
    }

    method Write(b: Bytes) returns (ok: bool)
      requires Valid()
      modifies this`outgoing
      ensures Valid() && ok == (|old(outgoing)| + |b| <= room)
      ensures outgoing == Cut(old(outgoing) + b, room)
    {
      ok := |outgoing| + |b| <= room;
      outgoing := outgoing + if ok then b else b[..room - |outgoing|];
      assert !ok ==> outgoing == (old(outgoing) + b)[..room];
    }
  }

  /** As much of `b` as fits into `room`. */
  function Cut(b: Bytes, room: nat): Bytes { if |b| <= room then b else b[..room] }

  method ReadMsg(c: Conn) returns (r: Option<Msg>)
    modifies c`incoming
    ensures match ReadOne(old(c.incoming))
            case Message(m, rest) => r == Some(m) && c.incoming == rest
            case BadLength(rest) => r.None? && c.incoming == rest
            case EndOfStream => r.None? && c.incoming == []
  {
    ghost var s := c.incoming;
    var h := c.ReadFull(5);
    if h.None? {
      return None;
    }
    assert h.value[1..5] == s[1..5];
    var n := Get32(h.value[1..5]);
    if n < 4 || n > MAX_MESSAGE {
      return None;
    }
    var body := c.ReadFull(n - 4);
    if body.None? {
      return None;
    }
    assert s[5..][..n - 4] == s[5..1 + n] && s[5..][n - 4..] == s[1 + n..];
    return Some(Msg(h.value[0], body.value));
  }

  method WriteMsg(c: Conn, m: Msg) returns (ok: bool)
    requires c.Valid()
    modifies c`outgoing
    ensures c.Valid() && ok == (|old(c.outgoing)| + |Frame(m)| <= c.room)
    ensures c.outgoing == Cut(old(c.outgoing) + Frame(m), c.room)
  {
    var out := [m.typ] + Put32(4 + |m.body|) + m.body;
    ok := c.Write(out);
  }

  lemma FrameParts(m: Msg, rest: Bytes)
    ensures var s := Frame(m) + rest;
            |s| == 5 + |m.body| + |rest| && s[0] == m.typ && s[1..5] == Put32(4 + |m.body|) && s[5..] == m.body + rest
  {
    hide Put32;
  }

  /** Framing round trip: a written message is read back exactly when it is not too long. */
  lemma FrameRoundTrip(m: Msg, rest: Bytes)
    ensures ReadOne(Frame(m) + rest) == Message(m, rest) <==> Fits(m)
  {
    hide Put32; hide Get32; hide Frame;
    var s := Frame(m) + rest;
    var n := 4 + |m.body|;
    GetPut(n);
    FrameParts(m, rest);
    assert Get32(s[1..5]) == n % UINT32;
    if Fits(m) {
      Split(s, 5, m.body, rest);
    }
  }

  lemma Split(s: Bytes, k: nat, a: Bytes, b: Bytes)
    requires k <= |s| && s[k..] == a + b
    ensures |s| == k + |a| + |b| && s[k..k + |a|] == a && s[k + |a|..] == b
  {
    assert s[k..][..|a|] == a && s[k..][|a|..] == b;
  }

  lemma Pieces(s: Bytes, j: nat, k: nat)
    requires 1 <= j <= k <= |s|
    ensures s == [s[0]] + s[1..j] + s[j..k] + s[k..]
  {
  }

  /** What is read is what was on the wire: no other message would have been written like that. */
  lemma ReadIsFrame(s: Bytes)
    requires ReadOne(s).Message?
    ensures s == Frame(ReadOne(s).msg) + ReadOne(s).rest && Fits(ReadOne(s).msg)
  {
    hide Put32; hide Get32;
    PutGet(s[1..5]);
    Pieces(s, 5, 1 + Get32(s[1..5]));
  }

  /** All messages of a stream, up to the first that cannot be read. */
  function ReadAll(s: Bytes): seq<Msg>
    decreases |s|
  {
    var r := ReadOne(s);
    if r.Message? then [r.msg] + ReadAll(r.rest) else []
  }

  predicate AllFit(msgs: seq<Msg>) { forall m :: m in msgs ==> Fits(m) }

  /** Reading a concatenation of written messages returns the same list exactly when none is too long. */
  lemma {:induction false} FramesRoundTrip(msgs: seq<Msg>)
    ensures ReadAll(Frames(msgs)) == msgs <==> AllFit(msgs)
  {
    hide Frame; hide ReadOne; hide Fits;
    if msgs == [] {
      NothingToRead();
    } else {
      var m, tail := msgs[0], msgs[1..];
      FramesRoundTrip(tail);
      FrameRoundTrip(m, Frames(tail));
      assert msgs == [m] + tail;
      if !Fits(m) && ReadOne(Frames(msgs)).Message? {
        ReadIsFrame(Frames(msgs));
      }
    }
  }

  lemma NothingToRead()
    ensures ReadOne([]).EndOfStream?
  {
  }

  // ---------------------------------------------------------------- the startup phase

  datatype StartupRead = Started(params: Params) | Cancelled(body: Bytes) | Unreadable

  /** What a client's first bytes ask for, what follows them, and how often encryption was declined. */
  datatype Opening = Opening(read: StartupRead, rest: Bytes, declined: nat)

  /** Reads packets until one is not a request for encryption; without a certificate those are declined, for
      which the client takes `room` bytes. */
  function Open(s: Bytes, room: nat): Opening
    decreases |s|
  {
    if |s| < 4 then Opening(Unreadable, [], 0)
    else
      var n := Get32(s[..4]);
      if n < 8 || n > MAX_STARTUP then Opening(Unreadable, s[4..], 0)
      else if |s| < n then Opening(Unreadable, [], 0)
      else
        var code := Get32(s[4..8]);
        if code == SSL_REQUEST || code == GSS_REQUEST then
          if room == 0 then Opening(Unreadable, s[n..], 0)
          else
            var o := Open(s[n..], room - 1);
            o.(declined := o.declined + 1)
        else if code == CANCEL_REQUEST then Opening(Cancelled(s[4..n]), s[n..], 0)
        else if code == PROTOCOL_3_0 then Opening(Started(Pairs(Strings(s[8..n]), map[])), s[n..], 0)
        else Opening(Unreadable, s[n..], 0)
  }

  const NO: Byte := 78  // 'N'

  function Declines(n: nat): (b: Bytes)
    ensures |b| == n
  {
    seq(n, _ => NO)
  }

  /** readStartup, for a gateway without a certificate. */
  method ReadStartup(c: Conn) returns (r: StartupRead)
    requires c.Valid()
    modifies c
    ensures var o := Open(old(c.incoming), c.room - |old(c.outgoing)|);
            r == o.read && c.incoming == o.rest && c.outgoing == old(c.outgoing) + Declines(o.declined)
  {
    hide Get32; hide Strings; hide Pairs;
    ghost var declined := 0;
    assert c.outgoing + Declines(0) == c.outgoing;
    while true
      invariant c.Valid() && |old(c.outgoing)| <= c.room
      invariant c.outgoing == old(c.outgoing) + Declines(declined)
      invariant var o := Open(c.incoming, c.room - |c.outgoing|);
                o.(declined := o.declined + declined) == Open(old(c.incoming), c.room - |old(c.outgoing)|)
      decreases |c.incoming|
    {
      ghost var s := c.incoming;
      var header := c.ReadFull(4);
      if header.None? {
        return Unreadable;
      }
      var n := Get32(header.value);
      if n < 8 || n > MAX_STARTUP {
        return Unreadable;
      }
      var body := c.ReadFull(n - 4);
      if body.None? {
        return Unreadable;
      }
      Packet(s, n);
      var code := Get32(body.value[..4]);
      if code == SSL_REQUEST || code == GSS_REQUEST {
        ghost var sent := c.outgoing;
        var ok := c.Write([NO]);
        if !ok {
          assert c.outgoing == sent;
          return Unreadable;
        }
        declined := declined + 1;
        assert Declines(declined) == Declines(declined - 1) + [NO];
      } else if code == CANCEL_REQUEST {
        return Cancelled(body.value);
      } else if code == PROTOCOL_3_0 {
        var params := ParseParams(body.value[4..]);
        return Started(params);
      } else {
        return Unreadable;
      }
    }
  }

  lemma Packet(s: Bytes, n: nat)
    requires 8 <= n <= |s|
    ensures var body := s[4..][..n - 4];
            body == s[4..n] && body[..4] == s[4..8] && body[4..] == s[8..n] && s[4..][n - 4..] == s[n..]
  {
  }

  lemma StartupParts(order: seq<Bytes>, params: Params, rest: Bytes)
    requires OrderOf(order, params)
    ensures var m := Startup(order, params);
            var s := m + rest;
            8 <= |m| && s[..4] == Put32(|m|) && s[4..8] == Put32(PROTOCOL_3_0) && s[8..|m|] == m[8..] && s[|m|..] == rest
  {
    hide Put32; hide Listing;
    var m := Startup(order, params);
    var listing := Listing(order, params) + [NUL];
    assert m == Put32(|m|) + (Put32(PROTOCOL_3_0) + listing) by {
      assert Put32(PROTOCOL_3_0) + Listing(order, params) + [NUL] == Put32(PROTOCOL_3_0) + listing;
    }
  }

  /** A startup message as the gateway writes it is read with the parameters it was made of, taking nothing of
      what follows it, exactly when no key is empty, nothing contains a NUL and it is not too long. */
  lemma StartupIsRead(order: seq<Bytes>, params: Params, rest: Bytes, room: nat)
    requires OrderOf(order, params)
    ensures Open(Startup(order, params) + rest, room) == Opening(Started(params), rest, 0) <==>
              Writable(params) && |Startup(order, params)| <= MAX_STARTUP
  {
    hide Put32; hide Get32; hide Strings; hide Pairs; hide Writable; hide Startup;
    var m := Startup(order, params);
    StartupParts(order, params, rest);
    StartupRoundTrip(order, params);
    GetPut(|m|);
    GetPut(PROTOCOL_3_0);
    var n := |m| % UINT32;
    if |m| > MAX_STARTUP && 8 <= n <= MAX_STARTUP {
      assert |(m + rest)[n..]| > |rest|;
    }
  }
}
