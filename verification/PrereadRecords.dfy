/**
 * The record-framing handler of the ssl_preread module and the preread phase that feeds it,
 * as functions on what has been received.
 */
module PrereadRecords {
  import opened Bytes
  import opened PrereadSpec
  import opened PrereadChunks
  import opened Options

  /** `Wait` keeps the context and the position of the first unparsed record. */
  datatype Scanned = Wait(ctx: Ctx, pos: nat) | Finish(verdict: Verdict, output: Option<Output>)

  /** A version 2 ClientHello, read from its first five bytes. */
  predicate IsV2Hello(b: seq<byte>, p: nat)
    requires p + 5 <= |b|
  {
    b[p] >= 0x80 && b[p + 2] == 1 && (b[p + 3] == 0 || b[p + 3] == 3)
  }

  function RecordLen(b: seq<byte>, p: nat): nat
    requires p + 5 <= |b|
  {
    U16(b[p + 3], b[p + 4])
  }

  /** The handler's loop over whole records from position `p` of the receive buffer. */
  function Scan(c: Ctx, b: seq<byte>, p: nat): (r: Scanned)
    requires Valid(c) && p <= |b|
    ensures r.Wait? ==> Valid(r.ctx) && r.pos <= |b|
    ensures r.Finish? && r.verdict == Declined ==> r.output == None
    decreases |b| - p
  {
    if |b| - p < 5 then Wait(c, p)
    else if IsV2Hello(b, p) then
      Finish(Ok, Some(OutputOf(c.(version := [b[p + 3], b[p + 4]]))))
    else if b[p] != 0x16 || b[p + 1] != 3 then Finish(Declined, None)
    else if |b| - p < RecordLen(b, p) + 5 then Wait(c, p)
    else
      var next := p + 5 + RecordLen(b, p);
      match Run(c, b[p + 5..next])
      case Again(d) => Scan(d, b, next)
      case Done(Ok, out) => Finish(Ok, Some(out))
      case Done(Declined, _) => Finish(Declined, None)
  }

  /** A later call on a longer buffer goes on exactly where one call on that buffer would be. */
  lemma {:induction false} ScanGrows(c: Ctx, b: seq<byte>, more: seq<byte>, p: nat)
    requires Valid(c) && p <= |b|
    ensures Scan(c, b + more, p) ==
            match Scan(c, b, p)
            case Wait(d, q) => Scan(d, b + more, q)
            case Finish(_, _) => Scan(c, b, p)
    decreases |b| - p
  {
    hide Valid, Run;
    if |b| - p >= 5 && !IsV2Hello(b, p) && b[p] == 0x16 && b[p + 1] == 3 && |b| - p >= RecordLen(b, p) + 5 {
      var next := p + 5 + RecordLen(b, p);
      assert (b + more)[p + 5..next] == b[p + 5..next];
      match Run(c, b[p + 5..next]) {
        case Again(d) => ScanGrows(d, b, more, next);
        case Done(_, _) =>
      }
    }
  }

  /** Calling the handler again on the same bytes changes nothing. */
  lemma ScanAgain(c: Ctx, b: seq<byte>, p: nat)
    requires Valid(c) && p <= |b| && Scan(c, b, p).Wait?
    ensures var r := Scan(c, b, p); Scan(r.ctx, b, r.pos) == r
  {
    ScanGrows(c, b, [], p);
    assert b + [] == b;
  }

  // ----- delivery -----

  /**
   * How the preread phase ends: a verdict, a full buffer (a bad request), the client gone (the
   * session ends normally), or still waiting for the client.
   */
  datatype Delivered = Passed(verdict: Verdict, output: Option<Output>) | BufferFull | Closed | Pending

  /** The phase wants more than the `n` bytes received, and no more come. */
  function Stuck(n: nat, cap: nat, over: bool): Delivered {
    if n == cap then BufferFull else if over then Closed else Pending
  }

  /** What the phase reports when `b` has been received into a buffer of `cap` bytes. */
  function Report(c: Ctx, b: seq<byte>, p: nat, cap: nat, over: bool): Delivered
    requires Valid(c) && p <= |b|
  {
    match Scan(c, b, p)
    case Finish(v, out) => Passed(v, out)
    case Wait(_, _) => Stuck(|b|, cap, over)
  }

  /** The number of bytes one recv call returns: never more than asked for or available. */
  function RecvSize(want: nat, room: nat, available: nat): nat {
    Min(want, Min(room, available))
  }

  /**
   * The loop of the preread phase: the handler runs after every recv until it reaches a verdict,
   * the buffer is full or nothing more comes: `over` says that the client has closed, that a recv
   * failed or that the timer fired after what came.
   */
  function Deliver(c: Ctx, p: nat, have: seq<byte>, cap: nat, incoming: seq<byte>, sizes: seq<nat>,
                   over: bool): Delivered
    requires Valid(c) && p <= |have| <= cap
    decreases |sizes|
  {
    match Scan(c, have, p)
    case Finish(v, out) => Passed(v, out)
    case Wait(d, q) =>
      if |have| == cap || sizes == [] then Stuck(|have|, cap, over)
      else
        var n := RecvSize(sizes[0], cap - |have|, |incoming|);
        Deliver(d, q, have + incoming[..n], cap, incoming[n..], sizes[1..], over)
  }

  /** One recv of the delivery loop, after the handler has asked for more. */
  lemma DeliverRecv(c: Ctx, p: nat, have: seq<byte>, cap: nat, incoming: seq<byte>, at: nat, sizes: seq<nat>, k: nat,
                    over: bool)
    requires Valid(c) && p <= |have| < cap && at <= |incoming| && k < |sizes| && Scan(c, have, p) == Wait(c, p)
    ensures var n := RecvSize(sizes[k], cap - |have|, |incoming| - at);
      Deliver(c, p, have, cap, incoming[at..], sizes[k..], over) ==
      Deliver(c, p, have + incoming[at..at + n], cap, incoming[at + n..], sizes[k + 1..], over)
  {
    hide Valid, Scan;
    var n := RecvSize(sizes[k], cap - |have|, |incoming| - at);
    assert incoming[at..][..n] == incoming[at..at + n] && incoming[at..][n..] == incoming[at + n..];
    assert sizes[k..][0] == sizes[k] && sizes[k..][1..] == sizes[k + 1..];
  }

  /** Where the handler asks for more, delivery goes on from the context it leaves. */
  lemma DeliverWait(c: Ctx, p: nat, have: seq<byte>, cap: nat, incoming: seq<byte>, sizes: seq<nat>, over: bool)
    requires Valid(c) && p <= |have| <= cap && Scan(c, have, p).Wait?
    ensures var r := Scan(c, have, p);
      Deliver(c, p, have, cap, incoming, sizes, over) == Deliver(r.ctx, r.pos, have, cap, incoming, sizes, over)
  {
    ScanAgain(c, have, p);
    hide Valid, Scan;
  }

  lemma DeliverStuck(c: Ctx, p: nat, have: seq<byte>, cap: nat, incoming: seq<byte>, sizes: seq<nat>, over: bool)
    requires Valid(c) && p <= |have| <= cap && Scan(c, have, p).Wait? && (|have| == cap || sizes == [])
    ensures Deliver(c, p, have, cap, incoming, sizes, over) ==
            if |have| == cap then BufferFull else if over then Closed else Pending
  {
  }

  lemma DeliverFinish(c: Ctx, p: nat, have: seq<byte>, cap: nat, incoming: seq<byte>, sizes: seq<nat>, over: bool)
    requires Valid(c) && p <= |have| <= cap && Scan(c, have, p).Finish?
    ensures var r := Scan(c, have, p);
      Deliver(c, p, have, cap, incoming, sizes, over) == Passed(r.verdict, r.output)
  {
  }

  lemma RecvFits(want: nat, room: nat, available: nat)
    ensures var n := RecvSize(want, room, available); n <= want && n <= room && n <= available
  {
  }

  function Total(sizes: seq<nat>): nat {
    if sizes == [] then 0 else sizes[0] + Total(sizes[1..])
  }

  /** What is received: as much as becomes available, is there and fits the buffer. */
  function Window(have: seq<byte>, incoming: seq<byte>, cap: nat, available: nat): seq<byte>
    requires |have| <= cap
  {
    have + incoming[..Min(available, Min(|incoming|, cap - |have|))]
  }

  lemma WindowStep(have: seq<byte>, incoming: seq<byte>, cap: nat, want: nat, more: nat)
    requires |have| <= cap
    ensures var n := RecvSize(want, cap - |have|, |incoming|);
      Window(have + incoming[..n], incoming[n..], cap, more) == Window(have, incoming, cap, want + more)
  {
  }

  lemma WindowWhole(have: seq<byte>, incoming: seq<byte>, cap: nat, available: nat)
    requires |have| <= cap && (|have| == cap || available == 0)
    ensures Window(have, incoming, cap, available) == have
  {
  }

  /** How the bytes are cut into recv calls does not matter: only what is received does. */
  lemma {:induction false} DeliverIsReport(
      c: Ctx, p: nat, have: seq<byte>, cap: nat, incoming: seq<byte>, sizes: seq<nat>, over: bool)
    requires Valid(c) && p <= |have| <= cap
    ensures |Window(have, incoming, cap, Total(sizes))| >= p
    ensures Deliver(c, p, have, cap, incoming, sizes, over) ==
            Report(c, Window(have, incoming, cap, Total(sizes)), p, cap, over)
    decreases |sizes|
  {
    hide Valid, Run;
    var all := Window(have, incoming, cap, Total(sizes));
    ScanGrows(c, have, incoming[..Min(Total(sizes), Min(|incoming|, cap - |have|))], p);
    match Scan(c, have, p) {
      case Finish(_, _) =>
      case Wait(d, q) =>
        if |have| == cap || sizes == [] {
          WindowWhole(have, incoming, cap, Total(sizes));
        } else {
          var n := RecvSize(sizes[0], cap - |have|, |incoming|);
          WindowStep(have, incoming, cap, sizes[0], Total(sizes[1..]));
          DeliverIsReport(d, q, have + incoming[..n], cap, incoming[n..], sizes[1..], over);
          hide Scan;
          assert Report(c, all, p, cap, over) == Report(d, all, q, cap, over);
        }
    }
  }

  /** A client that does not start with a handshake record is declined. */
  lemma NoHandshake(cap: nat, incoming: seq<byte>, sizes: seq<nat>, over: bool)
    requires 5 <= Min(Total(sizes), Min(|incoming|, cap))
    requires !(incoming[0] >= 0x80 && incoming[2] == 1 && (incoming[3] == 0 || incoming[3] == 3))
    requires incoming[0] != 0x16 || incoming[1] != 3
    ensures Deliver(INITIAL, 0, [], cap, incoming, sizes, over) == Passed(Declined, None)
  {
    DeliverIsReport(INITIAL, 0, [], cap, incoming, sizes, over);
    var w := Window([], incoming, cap, Total(sizes));
    assert |w| >= 5 && forall i :: 0 <= i < 5 ==> w[i] == incoming[i];
  }

  // ----- records -----

  /** One handshake record with major version 3. */
  datatype Record = Record(minor: byte, fragment: seq<byte>)

  function Print(r: Record): seq<byte>
    requires |r.fragment| < 0x10000
  {
    [0x16, 3, r.minor] + Put16(|r.fragment|) + r.fragment
  }

  ghost predicate Printable(rs: seq<Record>) {
    forall i :: 0 <= i < |rs| ==> |rs[i].fragment| < 0x10000
  }

  function PrintAll(rs: seq<Record>): seq<byte>
    requires Printable(rs)
  {
    if rs == [] then [] else Print(rs[0]) + PrintAll(rs[1..])
  }

  function Fragments(rs: seq<Record>): seq<seq<byte>> {
    if rs == [] then [] else [rs[0].fragment] + Fragments(rs[1..])
  }

  lemma PrintedRecord(pre: seq<byte>, r: Record, post: seq<byte>)
    requires |r.fragment| < 0x10000
    ensures var b := pre + Print(r) + post;
      var p := |pre|;
      && p + 5 <= |b| && b[p] == 0x16 && b[p + 1] == 3 && RecordLen(b, p) == |r.fragment|
      && p + 5 + |r.fragment| <= |b|
      && b[p + 5..p + 5 + |r.fragment|] == r.fragment
  {
    var b := pre + Print(r) + post;
    var p := |pre|;
    assert b[p + 3] == |r.fragment| / 0x100 && b[p + 4] == |r.fragment| % 0x100;
    assert b[p + 5..p + 5 + |r.fragment|] == r.fragment;
  }

  lemma ScanOne(c: Ctx, pre: seq<byte>, r: Record, post: seq<byte>)
    requires Valid(c) && |r.fragment| < 0x10000
    ensures Scan(c, pre + Print(r) + post, |pre|) ==
            match Run(c, r.fragment)
            case Again(d) => Scan(d, pre + Print(r) + post, |pre + Print(r)|)
            case Done(Ok, out) => Finish(Ok, Some(out))
            case Done(Declined, _) => Finish(Declined, None)
  {
    hide Valid, Run;
    PrintedRecord(pre, r, post);
    assert |pre + Print(r)| == |pre| + 5 + |r.fragment|;
  }

  /** Framing is transparent: scanning records is feeding their fragments to the parser. */
  lemma {:induction false} ScanRecords(c: Ctx, pre: seq<byte>, rs: seq<Record>, post: seq<byte>)
    requires Valid(c) && Printable(rs)
    requires Feed(c, Fragments(rs)).Done?
    ensures var r := Feed(c, Fragments(rs));
      Scan(c, pre + PrintAll(rs) + post, |pre|) ==
      Finish(r.verdict, if r.verdict == Ok then Some(r.output) else None)
    decreases |rs|
  {
    hide Valid, Run, Scan, Print;
    var rest := PrintAll(rs[1..]) + post;
    assert pre + PrintAll(rs) + post == pre + Print(rs[0]) + rest;
    ScanOne(c, pre, rs[0], rest);
    assert Fragments(rs)[0] == rs[0].fragment && Fragments(rs)[1..] == Fragments(rs[1..]);
    match Run(c, rs[0].fragment) {
      case Done(_, _) =>
      case Again(d) =>
        ScanRecords(d, pre + Print(rs[0]), rs[1..], post);
        assert pre + Print(rs[0]) + rest == pre + Print(rs[0]) + PrintAll(rs[1..]) + post;
    }
  }
}
