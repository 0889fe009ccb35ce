/** The gateway's startup relay and its cancel keys (internal/proxy/proxy.go): what the client is sent, and
    which backend a cancel request reaches. */
module Gateway {
  import opened Text
  import opened Wire

  const BACKEND_KEY_DATA: Byte := 75  // 'K'
  const READY_FOR_QUERY: Byte := 90   // 'Z'
  const ERROR_RESPONSE: Byte := 69    // 'E'

  function CancelKey(pid: nat, secret: nat): string { FormatInt(pid) + ":" + FormatInt(secret) }

  /** Two backends never share a key by the way it is printed. */
  lemma CancelKeyInjective(p: nat, s: nat, q: nat, t: nat)
    ensures CancelKey(p, s) == CancelKey(q, t) <==> p == q && s == t
  {
    hide FormatInt;
    if CancelKey(p, s) == CancelKey(q, t) {
      NoColon(p);
      NoColon(q);
      FirstCut(FormatInt(p), FormatInt(s), FormatInt(q), FormatInt(t), ':');
      FormatIntInjective(p, q);
      FormatIntInjective(s, t);
    }
  }

  lemma NoColon(n: nat)
    ensures ':' !in FormatInt(n)
  {
    assert DigitValue(':') == 16;
    FormatIntHasNo(n, ':');
  }

  /** The cancel key a message carries. */
  function KeyOf(m: Msg): Option<string> {
    if m.typ == BACKEND_KEY_DATA && |m.body| >= 8 then Some(CancelKey(Get32(m.body[..4]), Get32(m.body[4..8]))) else None
  }

  predicate Ends(m: Msg) { m.typ == READY_FOR_QUERY || m.typ == ERROR_RESPONSE }

  /** The last key the messages carry, "" if there is none. */
  function LastKey(msgs: seq<Msg>): string {
    if msgs == [] then ""
    else
      var n := |msgs| - 1;
      if KeyOf(msgs[n]).Some? then KeyOf(msgs[n]).value else LastKey(msgs[..n])
  }

  function KeysOf(msgs: seq<Msg>): set<string> {
    set m | m in msgs && KeyOf(m).Some? :: KeyOf(m).value
  }

  type Targets = map<string, string>

  datatype End = Ready | BackendError | ReadFailed | WriteFailed

  /** The cancel targets after the keys of the messages were registered. */
  ghost predicate Registered(before: Targets, after: Targets, msgs: seq<Msg>, addr: string) {
    after.Keys == before.Keys + KeysOf(msgs) &&
    forall k :: k in after ==> after[k] == if k in KeysOf(msgs) then addr else before[k]
  }

  /** What relaying the startup phase did: `msgs` were forwarded, `rest` is what followed them. */
  ghost predicate Relayed(stream: Bytes, msgs: seq<Msg>, rest: Bytes, end: End) {
    stream == Frames(msgs) + rest && AllFit(msgs) &&
    (forall i :: 0 <= i < |msgs| - 1 ==> !Ends(msgs[i])) &&
    match end
    case Ready => msgs != [] && msgs[|msgs| - 1].typ == READY_FOR_QUERY
    case BackendError => msgs != [] && msgs[|msgs| - 1].typ == ERROR_RESPONSE
    case ReadFailed => !ReadOne(rest).Message? && forall m :: m in msgs ==> !Ends(m)
    case WriteFailed => ReadOne(rest).Message? && forall m :: m in msgs ==> !Ends(m)
  }

  lemma {:induction false} FramesSnoc(msgs: seq<Msg>, m: Msg)
    ensures Frames(msgs + [m]) == Frames(msgs) + Frame(m)
  {
    hide Frame;
    if msgs == [] {
      assert [m][1..] == [] && [] + [m] == [m] && Frame(m) + [] == Frame(m) == [] + Frame(m);
    } else {
      FramesSnoc(msgs[1..], m);
      assert (msgs + [m])[1..] == msgs[1..] + [m];
      assert Frame(msgs[0]) + (Frames(msgs[1..]) + Frame(m)) == Frame(msgs[0]) + Frames(msgs[1..]) + Frame(m);
    }
  }

  lemma KeysSnoc(msgs: seq<Msg>, m: Msg)
    ensures KeysOf(msgs + [m]) == KeysOf(msgs) + if KeyOf(m).Some? then {KeyOf(m).value} else {}
    ensures LastKey(msgs + [m]) == if KeyOf(m).Some? then KeyOf(m).value else LastKey(msgs)
  {
    hide KeyOf;
    assert (msgs + [m])[..|msgs|] == msgs;
    assert forall x :: x in msgs + [m] <==> x in msgs || x == m;
  }

  /** What a relay starts from: the backend's stream, what the client was sent and can take, the registry. */
  datatype Start = Start(stream: Bytes, sent: Bytes, room: nat, targets: Targets, addr: string)

  /** All of `msgs` was forwarded and none of them ends the startup phase. */
  ghost predicate Progress(t: Start, msgs: seq<Msg>, rest: Bytes, out: Bytes, key: string, targets: Targets) {
    t.stream == Frames(msgs) + rest && AllFit(msgs) && (forall m :: m in msgs ==> !Ends(m)) &&
    out == t.sent + Frames(msgs) && |out| <= t.room &&
    key == LastKey(msgs) && Registered(t.targets, targets, msgs, t.addr)
  }

  /** The relay has ended. */
  ghost predicate Done(t: Start, msgs: seq<Msg>, rest: Bytes, end: End, out: Bytes, key: string, targets: Targets) {
    Relayed(t.stream, msgs, rest, end) &&
    key == LastKey(msgs) && Registered(t.targets, targets, msgs, t.addr) &&
    var sent := Frames(msgs) + (if end.WriteFailed? then Frame(ReadOne(rest).msg) else []);
    out == Cut(t.sent + sent, t.room) && (end.WriteFailed? <==> |t.sent + sent| > t.room)
  }

  function KeyAfter(m: Msg, key: string): string { if KeyOf(m).Some? then KeyOf(m).value else key }

  function TargetsAfter(m: Msg, targets: Targets, addr: string): Targets {
    if KeyOf(m).Some? then targets[KeyOf(m).value := addr] else targets
  }

  lemma RelayBegins(t: Start)
    requires |t.sent| <= t.room
    ensures Progress(t, [], t.stream, t.sent, "", t.targets)
  {
    assert [] + t.stream == t.stream && t.sent + [] == t.sent;
  }

  lemma ReadEnds(t: Start, msgs: seq<Msg>, rest: Bytes, out: Bytes, key: string, targets: Targets)
    requires Progress(t, msgs, rest, out, key, targets) && !ReadOne(rest).Message?
    ensures Done(t, msgs, rest, ReadFailed, out, key, targets)
  {
    hide Frames; hide LastKey; hide Registered; hide AllFit; hide ReadOne;
    assert Frames(msgs) + [] == Frames(msgs);
  }

  lemma WriteEnds(t: Start, msgs: seq<Msg>, rest: Bytes, out: Bytes, key: string, targets: Targets, m: Msg)
    requires Progress(t, msgs, rest, out, key, targets) && ReadOne(rest).Message? && ReadOne(rest).msg == m
    requires |out| + |Frame(m)| > t.room
    ensures Done(t, msgs, rest, WriteFailed, Cut(out + Frame(m), t.room), key, targets)
  {
    hide Frames; hide Frame; hide LastKey; hide Registered; hide AllFit; hide ReadOne;
    assert t.sent + Frames(msgs) + Frame(m) == t.sent + (Frames(msgs) + Frame(m));
  }

  /** One message more. */
  lemma Forwarded(t: Start, msgs: seq<Msg>, rest: Bytes, out: Bytes, key: string, targets: Targets, m: Msg, rest': Bytes)
    requires Progress(t, msgs, rest, out, key, targets) && ReadOne(rest) == Message(m, rest')
    requires |out| + |Frame(m)| <= t.room
    ensures t.stream == Frames(msgs + [m]) + rest' && AllFit(msgs + [m])
    ensures out + Frame(m) == t.sent + Frames(msgs + [m])
    ensures KeyAfter(m, key) == LastKey(msgs + [m])
    ensures Registered(t.targets, TargetsAfter(m, targets, t.addr), msgs + [m], t.addr)
  {
    hide Frames; hide Frame; hide LastKey; hide Fits; hide ReadOne; hide Registered;
    ReadIsFrame(rest);
    FramesSnoc(msgs, m);
    KeysSnoc(msgs, m);
    Regroup(Frames(msgs), Frame(m), rest');
    Regroup(t.sent, Frames(msgs), Frame(m));
    OneMoreKey(t.targets, targets, msgs, m, t.addr);
  }

  lemma Regroup(a: Bytes, b: Bytes, c: Bytes)
    ensures a + b + c == a + (b + c)
  {
  }

  lemma OneMoreKey(before: Targets, targets: Targets, msgs: seq<Msg>, m: Msg, addr: string)
    requires Registered(before, targets, msgs, addr)
    ensures Registered(before, TargetsAfter(m, targets, addr), msgs + [m], addr)
  {
    KeysSnoc(msgs, m);
    hide KeysOf; hide KeyOf; hide LastKey;
  }

  lemma RelayGoesOn(t: Start, msgs: seq<Msg>, rest: Bytes, out: Bytes, key: string, targets: Targets, m: Msg, rest': Bytes)
    requires Progress(t, msgs, rest, out, key, targets) && ReadOne(rest) == Message(m, rest')
    requires |out| + |Frame(m)| <= t.room && !Ends(m)
    ensures Progress(t, msgs + [m], rest', out + Frame(m), KeyAfter(m, key), TargetsAfter(m, targets, t.addr))
  {
    Forwarded(t, msgs, rest, out, key, targets, m, rest');
    hide Frames; hide Frame; hide LastKey; hide Registered; hide AllFit; hide KeyOf; hide ReadOne;
  }

  lemma RelayEnds(t: Start, msgs: seq<Msg>, rest: Bytes, out: Bytes, key: string, targets: Targets, m: Msg, rest': Bytes)
    requires Progress(t, msgs, rest, out, key, targets) && ReadOne(rest) == Message(m, rest')
    requires |out| + |Frame(m)| <= t.room && Ends(m)
    ensures Done(t, msgs + [m], rest', if m.typ == READY_FOR_QUERY then Ready else BackendError,
                 out + Frame(m), key, targets)
  {
    Forwarded(t, msgs, rest, out, key, targets, m, rest');
    OtherTypesCarryNoKey(m);
    hide Frames; hide Frame; hide LastKey; hide Registered; hide AllFit; hide ReadOne;
    assert Frames(msgs + [m]) + [] == Frames(msgs + [m]);
  }

  class Proxy {
    var cancelTargets: Targets

    method RegisterCancel(key: string, addr: string)
      modifies this`cancelTargets
      ensures cancelTargets == old(cancelTargets)[key := addr]
    {
      cancelTargets := cancelTargets[key := addr];
    }

    method DeregisterCancel(key: string)
      modifies this`cancelTargets
      ensures cancelTargets == old(cancelTargets) - {key}
    {
      cancelTargets := cancelTargets - {key};
    }

    /** Forwards the backend's startup messages up to and with the first ReadyForQuery or ErrorResponse, and
        returns the last key among them; every key is registered. */
    method RelayStartupCaptureKey(client: Conn, backend: Conn, addr: string)
      returns (key: string, end: End, ghost msgs: seq<Msg>, ghost rest: Bytes)
      requires client.Valid()
      modifies this`cancelTargets, client`outgoing, backend`incoming
      ensures Relayed(old(backend.incoming), msgs, rest, end)
      ensures key == LastKey(msgs) && Registered(old(cancelTargets), cancelTargets, msgs, addr)
      ensures var sent := Frames(msgs) + (if end.WriteFailed? then Frame(ReadOne(rest).msg) else []);
              client.outgoing == Cut(old(client.outgoing) + sent, client.room) &&
              (end.WriteFailed? <==> |old(client.outgoing) + sent| > client.room)
      ensures end.Ready? || end.BackendError? ==> backend.incoming == rest
    {
      hide Frame; hide Frames; hide ReadOne; hide LastKey; hide Progress; hide Relayed; hide Registered; hide Cut;
      key, msgs, rest := "", [], backend.incoming;
      ghost var t := Start(backend.incoming, client.outgoing, client.room, cancelTargets, addr);
      RelayBegins(t);
      while true
        invariant backend.incoming == rest && client.Valid()
        invariant Progress(t, msgs, rest, client.outgoing, key, cancelTargets)
        decreases |rest|
      {
        ghost var out := client.outgoing;
        var r := ReadMsg(backend);
        if r.None? {
          ReadEnds(t, msgs, rest, out, key, cancelTargets);
          return key, ReadFailed, msgs, rest;
        }
        var m := r.value;
        var ok := WriteMsg(client, m);
        if !ok {
          WriteEnds(t, msgs, rest, out, key, cancelTargets, m);
          return key, WriteFailed, msgs, rest;
        }
        CutNothing(out + Frame(m), client.room);
        ReadIsShorter(rest);
        if m.typ == READY_FOR_QUERY {
          RelayEnds(t, msgs, rest, out, key, cancelTargets, m, backend.incoming);
          return key, Ready, msgs + [m], backend.incoming;
        } else if m.typ == ERROR_RESPONSE {
          RelayEnds(t, msgs, rest, out, key, cancelTargets, m, backend.incoming);
          return key, BackendError, msgs + [m], backend.incoming;
        }
        RelayGoesOn(t, msgs, rest, out, key, cancelTargets, m, backend.incoming);
        msgs, rest := msgs + [m], backend.incoming;
        if m.typ == BACKEND_KEY_DATA && |m.body| >= 8 {
          key := CancelKey(Get32(m.body[..4]), Get32(m.body[4..8]));
          RegisterCancel(key, addr);
        }
      }
    }

    /** A session: what it registered is taken back at its end exactly when the startup phase succeeded and the
        backend sent no second, different key (or none at all was sent). The session's traffic in between is
        not part of this model. */
    method Handle(client: Conn, backend: Conn, addr: string) returns (end: End, ghost msgs: seq<Msg>)
      requires client.Valid()
      modifies this`cancelTargets, client`outgoing, backend`incoming
      ensures exists rest :: Relayed(old(backend.incoming), msgs, rest, end)
      ensures old(cancelTargets).Keys !! KeysOf(msgs) ==>
                (cancelTargets == old(cancelTargets) <==>
                 KeysOf(msgs) == {} || (end.Ready? && KeysOf(msgs) == {LastKey(msgs)}))
    {
      hide Relayed; hide KeysOf; hide LastKey; hide Cut; hide Frames;
      var key;
      ghost var rest;
      key, end, msgs, rest := RelayStartupCaptureKey(client, backend, addr);
      KeyOrNone(msgs);
      if KeysOf(msgs) != {} && old(cancelTargets).Keys !! KeysOf(msgs) {
        SessionLeavesNoKeyIff(old(cancelTargets), cancelTargets, msgs, addr);
        LastKeyIsAKey(msgs);
      }
      if !end.Ready? {
        return;
      }
      if key != "" {
        DeregisterCancel(key);
      }
    }

    /** The backend a cancel request is for, and the packet it is sent; nothing for an unknown key. */
    method ForwardCancel(body: Bytes) returns (r: Option<(string, Bytes)>)
      ensures r == CancelPacket(cancelTargets, body)
    {
      if |body| < 12 {
        return None;
      }
      var key := CancelKey(Get32(body[4..8]), Get32(body[8..12]));
      var addr := if key in cancelTargets then cancelTargets[key] else "";
      if addr == "" {
        return None;
      }
      return Some((addr, Put32(16) + Put32(CANCEL_REQUEST) + body[4..12]));
    }
  }

  function CancelPacket(targets: Targets, body: Bytes): Option<(string, Bytes)> {
    if |body| < 12 then None
    else
      var key := CancelKey(Get32(body[4..8]), Get32(body[8..12]));
      if key !in targets || targets[key] == "" then None
      else Some((targets[key], Put32(16) + Put32(CANCEL_REQUEST) + body[4..12]))
  }

  lemma ReadIsShorter(s: Bytes)
    requires ReadOne(s).Message?
    ensures |ReadOne(s).rest| < |s|
  {
  }

  lemma CutNothing(b: Bytes, room: nat)
    requires |b| <= room
    ensures Cut(b, room) == b
  {
  }

  lemma OtherTypesCarryNoKey(m: Msg)
    requires m.typ != BACKEND_KEY_DATA
    ensures KeyOf(m).None?
  {
  }

  // ---------------------------------------------------------------- what the client sees

  lemma {:induction false} ReadAllFrames(msgs: seq<Msg>, rest: Bytes)
    requires AllFit(msgs)
    ensures ReadAll(Frames(msgs) + rest) == msgs + ReadAll(rest)
  {
    hide ReadOne; hide Frame; hide Fits;
    if msgs == [] {
      assert [] + rest == rest;
    } else {
      var m, tail := msgs[0], msgs[1..];
      assert Frames(msgs) + rest == Frame(m) + (Frames(tail) + rest);
      assert m in msgs;
      FrameRoundTrip(m, Frames(tail) + rest);
      ReadAllFrames(tail, rest);
    }
  }

  /** Where the backend's stream starts with the messages `all`, of which the one at `k` is the first
      ReadyForQuery or ErrorResponse, the relay forwards exactly the messages up to and with it; the rest
      of the stream is left for the session. */
  lemma RelayForwardsThroughFirstEnd(all: seq<Msg>, tail: Bytes, k: nat, msgs: seq<Msg>, rest: Bytes, end: End)
    requires AllFit(all) && k < |all| && Ends(all[k]) && forall i :: 0 <= i < k ==> !Ends(all[i])
    requires Relayed(Frames(all) + tail, msgs, rest, end) && !end.WriteFailed?
    ensures msgs == all[..k + 1] && end == (if all[k].typ == READY_FOR_QUERY then Ready else BackendError)
    ensures rest == Frames(all[k + 1..]) + tail
  {
    hide Frame; hide Frames; hide ReadOne; hide ReadAll; hide Relayed; hide Ends;
    StopsAtFirstEnd(all, tail, k, msgs, rest, end);
    StreamOf(all, tail, msgs, rest, end);
    FramesSplit(all, k + 1);
    Regroup(Frames(msgs), Frames(all[k + 1..]), tail);
    SameTail(Frames(msgs), rest, Frames(all[k + 1..]) + tail);
  }

  lemma StreamOf(all: seq<Msg>, tail: Bytes, msgs: seq<Msg>, rest: Bytes, end: End)
    requires Relayed(Frames(all) + tail, msgs, rest, end)
    ensures Frames(all) + tail == Frames(msgs) + rest
  {
  }

  lemma StopsAtFirstEnd(all: seq<Msg>, tail: Bytes, k: nat, msgs: seq<Msg>, rest: Bytes, end: End)
    requires AllFit(all) && k < |all| && Ends(all[k]) && forall i :: 0 <= i < k ==> !Ends(all[i])
    requires Relayed(Frames(all) + tail, msgs, rest, end) && !end.WriteFailed?
    ensures msgs == all[..k + 1] && end == (if all[k].typ == READY_FOR_QUERY then Ready else BackendError)
  {
    hide Frame; hide Frames; hide ReadOne; hide ReadAll;
    ReadAllFrames(all, tail);
    ReadAllFrames(msgs, rest);
    if !ReadOne(rest).Message? {
      NoMoreMessages(rest);
    }
    FirstEndDecides(all, ReadAll(tail), k, msgs, ReadAll(rest), end);
  }

  /** Two readings of one list of messages stop at the same place. */
  lemma FirstEndDecides(all: seq<Msg>, more: seq<Msg>, k: nat, msgs: seq<Msg>, left: seq<Msg>, end: End)
    requires k < |all| && Ends(all[k]) && forall i :: 0 <= i < k ==> !Ends(all[i])
    requires all + more == msgs + left && forall i :: 0 <= i < |msgs| - 1 ==> !Ends(msgs[i])
    requires match end
             case Ready => msgs != [] && msgs[|msgs| - 1].typ == READY_FOR_QUERY
             case BackendError => msgs != [] && msgs[|msgs| - 1].typ == ERROR_RESPONSE
             case ReadFailed => left == [] && forall m :: m in msgs ==> !Ends(m)
             case WriteFailed => false
    ensures msgs == all[..k + 1] && end == (if all[k].typ == READY_FOR_QUERY then Ready else BackendError)
  {
    var whole := all + more;
    assert forall i :: 0 <= i < |msgs| ==> msgs[i] == whole[i];
    assert forall i :: 0 <= i < |all| ==> all[i] == whole[i];
    assert |whole| == |msgs| + |left| == |all| + |more|;
    assert |msgs| > k ==> msgs[k] == all[k];
    assert |msgs| == k + 1;
  }

  lemma SameTail(a: Bytes, x: Bytes, y: Bytes)
    requires a + x == a + y
    ensures x == y
  {
    assert (a + x)[|a|..] == x && (a + y)[|a|..] == y;
  }

  lemma NoMoreMessages(s: Bytes)
    requires !ReadOne(s).Message?
    ensures ReadAll(s) == []
  {
  }

  lemma {:induction false} FramesSplit(msgs: seq<Msg>, n: nat)
    requires n <= |msgs|
    ensures Frames(msgs) == Frames(msgs[..n]) + Frames(msgs[n..])
  {
    hide Frame;
    if n == 0 {
      assert msgs[0..] == msgs && msgs[..0] == [] && [] + Frames(msgs) == Frames(msgs);
    } else {
      FramesSplit(msgs[1..], n - 1);
      assert msgs[1..][..n - 1] == msgs[..n][1..] && msgs[1..][n - 1..] == msgs[n..];
      assert Frame(msgs[0]) + (Frames(msgs[..n][1..]) + Frames(msgs[n..])) == Frame(msgs[0]) + Frames(msgs[..n][1..]) + Frames(msgs[n..]);
    }
  }

  // ---------------------------------------------------------------- cancel keys over a session

  /** A cancel request with the numbers of the key a client was given reaches its backend, with those
      numbers. */
  lemma CancelReachesBackend(before: Targets, after: Targets, msgs: seq<Msg>, addr: string, m: Msg, code: Bytes)
    requires Registered(before, after, msgs, addr) && addr != ""
    requires m in msgs && KeyOf(m).Some? && |code| == 4
    ensures CancelPacket(after, code + m.body[..8]) == Some((addr, Put32(16) + Put32(CANCEL_REQUEST) + m.body[..8]))
  {
    hide CancelKey; hide Get32; hide Put32;
    var body := code + m.body[..8];
    assert body[4..8] == m.body[..4] && body[8..12] == m.body[4..8] && body[4..12] == m.body[..8];
    assert KeyOf(m).value in KeysOf(msgs);
  }

  /** Deregistering the returned key at the end of a session takes back all that the relay registered exactly
      when the backend sent no second, different key. */
  lemma SessionLeavesNoKeyIff(before: Targets, after: Targets, msgs: seq<Msg>, addr: string)
    requires Registered(before, after, msgs, addr) && before.Keys !! KeysOf(msgs) && KeysOf(msgs) != {}
    ensures after - {LastKey(msgs)} == before <==> KeysOf(msgs) == {LastKey(msgs)}
  {
    LastKeyIsAKey(msgs);
    var key := LastKey(msgs);
    hide LastKey; hide KeysOf;
    if after - {key} == before {
      assert (after - {key}).Keys == after.Keys - {key};
    }
  }

  lemma {:induction false} KeyOrNone(msgs: seq<Msg>)
    ensures KeysOf(msgs) == {} <==> LastKey(msgs) == ""
  {
    if msgs != [] {
      var n := |msgs| - 1;
      KeyOrNone(msgs[..n]);
      KeysSnoc(msgs[..n], msgs[n]);
      assert msgs == msgs[..n] + [msgs[n]];
    }
  }

  lemma {:induction false} LastKeyIsAKey(msgs: seq<Msg>)
    ensures KeysOf(msgs) != {} ==> LastKey(msgs) in KeysOf(msgs)
  {
    hide KeyOf;
    if msgs != [] {
      var n := |msgs| - 1;
      LastKeyIsAKey(msgs[..n]);
      KeysSnoc(msgs[..n], msgs[n]);
      assert msgs == msgs[..n] + [msgs[n]];
    }
  }

  // ---------------------------------------------------------------- sessions that leave a key behind

  function KeyData(secret: Byte): Msg { Msg(BACKEND_KEY_DATA, [0, 0, 0, 1, 0, 0, 0, secret]) }

  lemma KeyDataKey(secret: Byte)
    ensures KeyOf(KeyData(secret)) == Some(CancelKey(1, secret)) && Fits(KeyData(secret)) && !Ends(KeyData(secret))
  {
    var b := KeyData(secret).body;
    assert b[..4] == [0, 0, 0, 1] && b[4..8] == [0, 0, 0, secret];
  }

  /** A key followed by an error: the session ends without taking the key back. */
  lemma FailedStartupLeavesAKey(addr: string) returns (msgs: seq<Msg>, after: Targets)
    ensures Relayed(Frames(msgs), msgs, [], BackendError) && Registered(map[], after, msgs, addr) && after != map[]
  {
    hide Frames; hide KeyOf; hide CancelKey;
    var k, e := KeyData(2), Msg(ERROR_RESPONSE, []);
    KeyDataKey(2);
    OtherTypesCarryNoKey(e);
    msgs := [k, e];
    assert k == msgs[0] && e == msgs[1];
    assert Frames(msgs) == Frames(msgs) + [];
    after := map[CancelKey(1, 2) := addr];
    assert KeysOf(msgs) == {CancelKey(1, 2)};
    assert CancelKey(1, 2) in after;
  }

  /** Two different keys before ReadyForQuery: the session takes only the last one back. */
  lemma SecondKeyLeavesTheFirst(addr: string) returns (msgs: seq<Msg>, after: Targets)
    ensures Relayed(Frames(msgs), msgs, [], Ready) && Registered(map[], after, msgs, addr)
    ensures after - {LastKey(msgs)} != map[]
  {
    hide KeyOf; hide KeysOf; hide LastKey; hide Relayed; hide Frames; hide Fits; hide Ends;
    var j, k, z := DifferentKeys();
    msgs := [j, k, z];
    WholeStartup(j, k, z);
    TwoKeys(j, k, z);
    var first, last := KeyOf(j).value, KeyOf(k).value;
    after := map[first := addr, last := addr];
    assert first in after - {last};
  }

  lemma DifferentKeys() returns (j: Msg, k: Msg, z: Msg)
    ensures KeyOf(j).Some? && KeyOf(k).Some? && KeyOf(z).None? && KeyOf(j) != KeyOf(k)
    ensures Fits(j) && Fits(k) && Fits(z) && !Ends(j) && !Ends(k) && z.typ == READY_FOR_QUERY
  {
    hide KeyOf; hide CancelKey; hide KeyData;
    j, k, z := KeyData(2), KeyData(3), Msg(READY_FOR_QUERY, []);
    KeyDataKey(2);
    KeyDataKey(3);
    CancelKeyInjective(1, 2, 1, 3);
    OtherTypesCarryNoKey(z);
  }

  lemma WholeStartup(j: Msg, k: Msg, z: Msg)
    requires Fits(j) && Fits(k) && Fits(z) && !Ends(j) && !Ends(k) && z.typ == READY_FOR_QUERY
    ensures Relayed(Frames([j, k, z]), [j, k, z], [], Ready)
  {
    hide Frames; hide Fits; hide Ends;
    var msgs := [j, k, z];
    assert msgs[0] == j && msgs[1] == k && msgs[2] == z;
    assert Frames(msgs) == Frames(msgs) + [];
  }

  lemma TwoKeys(j: Msg, k: Msg, z: Msg)
    requires KeyOf(j).Some? && KeyOf(k).Some? && KeyOf(z).None?
    ensures KeysOf([j, k, z]) == {KeyOf(j).value, KeyOf(k).value} && LastKey([j, k, z]) == KeyOf(k).value
  {
    hide KeyOf; hide KeysOf; hide LastKey;
    KeysSnoc([], j);
    KeysSnoc([j], k);
    KeysSnoc([j, k], z);
    assert [] + [j] == [j] && [j] + [k] == [j, k] && [j, k] + [z] == [j, k, z];
    NoKeysIn();
  }

  lemma NoKeysIn()
    ensures KeysOf([]) == {}
  {
  }
}
