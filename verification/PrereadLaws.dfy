/** What the preread phase does with any bytes a client may send. */
module PrereadLaws {
  import opened Bytes
  import opened PrereadSpec
  import opened PrereadChunks
  import opened PrereadRecords
  import opened PrereadRoundTrip
  import opened PrereadGrammar
  import opened PrereadRejects
  import opened PrereadSound
  import opened Options

  // ----- from the parser to the phase -----

  /** The records fit the buffer, become available, and join to something that starts with `f`. */
  ghost predicate Carries(f: seq<byte>, records: seq<Record>, cap: nat, sizes: seq<nat>) {
    && Printable(records) && records != [] && f <= Flatten(Fragments(records))
    && |PrintAll(records)| <= Min(cap, Total(sizes))
  }

  /** However a message that starts with `f` is cut into records and delivered, the phase declines it. */
  ghost predicate DeclinedFrom(f: seq<byte>) {
    forall records, post, cap, sizes, over :: Carries(f, records, cap, sizes) ==>
      Deliver(INITIAL, 0, [], cap, PrintAll(records) + post, sizes, over) == Passed(Declined, None)
  }

  lemma DeliveredRun(records: seq<Record>, post: seq<byte>, cap: nat, sizes: seq<nat>, over: bool)
    requires Printable(records) && records != [] && |PrintAll(records)| <= Min(cap, Total(sizes))
    requires Run(INITIAL, Flatten(Fragments(records))).Done?
    ensures var r := Run(INITIAL, Flatten(Fragments(records)));
      Deliver(INITIAL, 0, [], cap, PrintAll(records) + post, sizes, over) ==
      Passed(r.verdict, if r.verdict == Ok then Some(r.output) else None)
  {
    hide Run, Scan, Print;
    var wire := PrintAll(records);
    var window := Window([], wire + post, cap, Total(sizes));
    var more := window[|wire|..];
    assert window == [] + wire + more;
    assert |Fragments(records)| > 0;
    FeedIsRun(INITIAL, Fragments(records));
    ScanRecords(INITIAL, [], records, more);
    DeliverIsReport(INITIAL, 0, [], cap, wire + post, sizes, over);
  }

  lemma Declines(f: seq<byte>)
    requires IsDeclined(Run(INITIAL, f))
    ensures DeclinedFrom(f)
  {
    hide Run, Deliver;
    forall records, post, cap, sizes, over | Carries(f, records, cap, sizes)
      ensures Deliver(INITIAL, 0, [], cap, PrintAll(records) + post, sizes, over) == Passed(Declined, None)
    {
      var all := Flatten(Fragments(records));
      RunConcat(INITIAL, f, all[|f|..]);
      assert all == f + all[|f|..];
      DeliveredRun(records, post, cap, sizes, over);
    }
  }

  // ----- each of the parser's refusals -----

  /** A handshake message of another type. */
  lemma DeclinesOtherType(f: seq<byte>)
    requires 4 <= |f| && f[0] != 1
    ensures DeclinedFrom(f)
  {
    hide Run;
    var d := Head(f);
    Declines(f);
  }

  /** A field before the extensions that goes past the end of the message. */
  lemma DeclinesLongField(m: Message, len: nat, rest: seq<byte>)
    requires |m.version| == 2 && |m.random| == 32 && |m.sessionId| < 0x100
    requires |m.suites| < 0x10000 && |m.compressions| < 0x100 && len < |PrintStart(m)|
    ensures DeclinedFrom(MessageHead(len) + PrintStart(m) + rest)
  {
    StartOverrun(m, len, rest);
    hide Run;
    Declines(MessageHead(len) + PrintStart(m) + rest);
  }

  /** One byte behind those fields, where the length of the extension block takes two. */
  lemma DeclinesShortBlock(m: Message, rest: seq<byte>)
    requires |m.version| == 2 && |m.random| == 32 && |m.sessionId| < 0x100
    requires |m.suites| < 0x10000 && |m.compressions| < 0x100
    ensures DeclinedFrom(MessageHead(|PrintStart(m)| + 1) + PrintStart(m) + rest)
  {
    var len := |PrintStart(m)| + 1;
    assert len < 0x1000000;
    hide Run, PrintStart, MessageHead;
    var c := RunStart(m, len, rest);
    StatedOverrun(c, rest);
    Declines(MessageHead(len) + PrintStart(m) + rest);
  }

  /** An extension that goes past the end of the message. */
  lemma DeclinesLongExtension(m: Message, len: nat, it: Item, rest: seq<byte>)
    requires Begun(m, len) && Sized(it) && InTurn(Shown(m), it)
    requires |PrintContent(m)| < len < |PrintContent(m)| + |PrintItem(it)|
    ensures DeclinedFrom(MessageHead(len) + PrintContent(m) + (PrintItem(it) + rest))
  {
    hide Run, PrintContent, PrintItem, MessageHead, Shown, Sized, InTurn;
    var c := Reach(m, len, PrintItem(it) + rest);
    ItemOverrun(c, it, rest);
    Declines(MessageHead(len) + PrintContent(m) + (PrintItem(it) + rest));
  }

  /** A server name that is no host name, or is longer than the list it is in. */
  lemma DeclinesHostName(m: Message, len: nat, stated: seq<byte>, list: seq<byte>, head: seq<byte>, rest: seq<byte>)
    requires Begun(m, len) && Shown(m).host == None && |PrintContent(m)| + 9 <= len
    requires |stated| == |list| == 2 && |head| == 3
    requires head[0] != 0 || 256 * (list[0] as int) + list[1] < 3 + 256 * (head[1] as int) + head[2]
    ensures DeclinedFrom(MessageHead(len) + PrintContent(m) + ([0, 0] + stated + (list + (head + rest))))
  {
    hide Run, PrintContent, MessageHead, Shown;
    var bad := [0, 0] + stated + (list + (head + rest));
    var c := Reach(m, len, bad);
    BetweenOutput(c);
    BadHost(c, stated, list, head, rest);
    Declines(MessageHead(len) + PrintContent(m) + bad);
  }

  /** A protocol name that is empty, or longer than what is left of the list it is in. */
  lemma DeclinesProtocol(m: Message, len: nat, stated: seq<byte>, list: seq<byte>, names: seq<seq<byte>>, n: byte,
                         rest: seq<byte>)
    requires Begun(m, len) && Shown(m).alpn == None && NamesFormed(names) && |stated| == |list| == 2
    requires |PrintContent(m)| + 7 + |PrintNames(names)| <= len
    requires names == [] || |PrintNames(names)| < 256 * (list[0] as int) + list[1]
    requires n == 0 || 256 * (list[0] as int) + list[1] <= |PrintNames(names)| + n
    ensures DeclinedFrom(
      MessageHead(len) + PrintContent(m) + ([0, 16] + stated + (list + (PrintNames(names) + ([n] + rest)))))
  {
    hide Run, PrintContent, MessageHead, Shown, PrintNames;
    var bad := [0, 16] + stated + (list + (PrintNames(names) + ([n] + rest)));
    var c := Reach(m, len, bad);
    BetweenOutput(c);
    BadProtocol(c, stated, list, names, n, rest);
    Declines(MessageHead(len) + PrintContent(m) + bad);
  }

  // ----- every outcome of the phase -----

  /** The bytes at `p` start a version 2 hello. */
  predicate OldHello(b: seq<byte>, p: nat) {
    p + 5 <= |b| && b[p] >= 0x80 && b[p + 2] == 1 && (b[p + 3] == 0 || b[p + 3] == 3)
  }

  /** The bytes at `p` start neither that nor a handshake record of major version 3. */
  predicate Foreign(b: seq<byte>, p: nat) {
    p + 5 <= |b| && !OldHello(b, p) && (b[p] != 0x16 || b[p + 1] != 3)
  }

  /** The bytes from `p` on are the start of such a record, or of whatever five bytes would tell. */
  predicate Partial(b: seq<byte>, p: nat) {
    p <= |b| < p + 5 ||
    (p + 5 <= |b| < p + 5 + 256 * (b[p + 3] as int) + b[p + 4] && b[p] == 0x16 && b[p + 1] == 3 && !OldHello(b, p))
  }

  ghost predicate Splits(c: Ctx, b: seq<byte>, p: nat, rs: seq<Record>, r: Scanned)
    requires Valid(c)
  {
    && Printable(rs) && p + |PrintAll(rs)| <= |b| && b[p..p + |PrintAll(rs)|] == PrintAll(rs)
    && var q := p + |PrintAll(rs)|;
      match r
      case Wait(d, q') => q' == q && Feed(c, Fragments(rs)) == Again(d) && Partial(b, q)
      case Finish(Ok, out) =>
        || (rs != [] && out.Some? && Feed(c, Fragments(rs)) == Done(Ok, out.value))
        || (OldHello(b, q) && out.Some? && out.value.version == [b[q + 3], b[q + 4]] && Feed(c, Fragments(rs)).Again?)
      case Finish(Declined, out) =>
        && out == None
        && ((rs != [] && IsDeclined(Feed(c, Fragments(rs)))) || (Foreign(b, q) && Feed(c, Fragments(rs)).Again?))
  }

  lemma RecordAt(b: seq<byte>, p: nat) returns (r: Record)
    requires p + 5 <= |b| && b[p] == 0x16 && b[p + 1] == 3 && p + 5 + U16(b[p + 3], b[p + 4]) <= |b|
    ensures |r.fragment| < 0x10000 && r.fragment == b[p + 5..p + 5 + U16(b[p + 3], b[p + 4])]
    ensures Print(r) == b[p..p + 5 + U16(b[p + 3], b[p + 4])]
  {
    r := Record(b[p + 2], b[p + 5..p + 5 + U16(b[p + 3], b[p + 4])]);
    Put16Of(b[p + 3..p + 5]);
    assert b[p..p + 5] == [0x16, 3, r.minor] + b[p + 3..p + 5];
  }

  /** The first record, which did not decide, and those after it. */
  lemma MoreRecords(c: Ctx, d: Ctx, b: seq<byte>, p: nat, first: Record, rs: seq<Record>, r: Scanned)
    requires Valid(c) && Valid(d) && |first.fragment| < 0x10000 && Run(c, first.fragment) == Again(d)
    requires p + |Print(first)| <= |b| && b[p..p + |Print(first)|] == Print(first)
    requires Splits(d, b, p + |Print(first)|, rs, r)
    ensures Splits(c, b, p, [first] + rs, r)
  {
    hide Run, Print;
    var all := [first] + rs;
    assert all[1..] == rs;
    assert Fragments(all) == [first.fragment] + Fragments(rs);
    assert Fragments(all)[1..] == Fragments(rs);
    assert PrintAll(all) == Print(first) + PrintAll(rs);
    var k, n := |Print(first)|, |PrintAll(rs)|;
    assert b[p..p + k + n] == b[p..p + k] + b[p + k..p + k + n];
  }

  lemma LastRecord(c: Ctx, b: seq<byte>, p: nat, first: Record, v: Verdict, o: Output)
    requires Valid(c) && |first.fragment| < 0x10000 && Run(c, first.fragment) == Done(v, o)
    requires p + |Print(first)| <= |b| && b[p..p + |Print(first)|] == Print(first)
    ensures Splits(c, b, p, [first], Finish(v, if v == Ok then Some(o) else None))
  {
    hide Run, Print;
    assert [first][1..] == [] && Fragments([first]) == [first.fragment];
    assert PrintAll([first]) == Print(first) + [] == Print(first);
  }

  lemma {:induction false} ScanSplits(c: Ctx, b: seq<byte>, p: nat) returns (rs: seq<Record>)
    requires Valid(c) && p <= |b|
    ensures Splits(c, b, p, rs, Scan(c, b, p))
    decreases |b| - p
  {
    hide Valid, Run;
    rs := [];
    assert b[p..p] == [] && Fragments(rs) == [];
    if |b| - p >= 5 && !OldHello(b, p) && !Foreign(b, p) && |b| - p >= 5 + RecordLen(b, p) {
      var next := p + 5 + RecordLen(b, p);
      var first := RecordAt(b, p);
      assert |Print(first)| == next - p;
      hide Print;
      match Run(c, b[p + 5..next]) {
        case Again(d) =>
          hide Splits;
          var more := ScanSplits(d, b, next);
          MoreRecords(c, d, b, p, first, more, Scan(d, b, next));
          rs := [first] + more;
        case Done(v, o) =>
          hide Splits;
          LastRecord(c, b, p, first, v, o);
          rs := [first];
      }
    }
  }

  /** `f` starts with a whole message that the grammar allows. */
  ghost predicate StartsWell(f: seq<byte>, out: Output) {
    exists m :: MessageOk(m) && PrintMessage(m) <= f && Shown(m) == out
  }

  /** No message of the grammar starts as `f` does. */
  ghost predicate StartsBadly(f: seq<byte>) {
    forall m, more :: MessageOk(m) ==> !(PrintMessage(m) <= f + more)
  }

  lemma FeedOk(rs: seq<Record>, out: Output)
    requires rs != [] && Feed(INITIAL, Fragments(rs)) == Done(Ok, out)
    ensures StartsWell(Flatten(Fragments(rs)), out)
  {
    hide Run, Feed, MessageOk, PrintMessage, Shown;
    assert |Fragments(rs)| > 0;
    FeedIsRun(INITIAL, Fragments(rs));
    Exactly(Flatten(Fragments(rs)), out);
  }

  lemma FeedDeclined(rs: seq<Record>)
    requires rs != [] && IsDeclined(Feed(INITIAL, Fragments(rs)))
    ensures StartsBadly(Flatten(Fragments(rs)))
  {
    hide Run, Feed, MessageOk, PrintMessage, Shown;
    var f := Flatten(Fragments(rs));
    assert |Fragments(rs)| > 0;
    FeedIsRun(INITIAL, Fragments(rs));
    forall m, more | MessageOk(m) ensures !(PrintMessage(m) <= f + more) {
      RunConcat(INITIAL, f, more);
      if PrintMessage(m) <= f + more {
        Exactly(f + more, Shown(m));
        assert false;
      }
    }
  }

  lemma FeedAgain(rs: seq<Record>)
    requires Feed(INITIAL, Fragments(rs)).Again?
    ensures var f := Flatten(Fragments(rs));
      |f| < 4 || (f[0] == 1 && |f| < 4 + U24(f[1], f[2], f[3]))
  {
    hide Run, U24;
    var f := Flatten(Fragments(rs));
    if rs != [] && 4 <= |f| && (f[0] != 1 || 4 + U24(f[1], f[2], f[3]) <= |f|) {
      assert |Fragments(rs)| > 0;
      FeedIsRun(INITIAL, Fragments(rs));
      Decided(f);
    }
  }

  /** Neither the record at `q` is complete nor the message whose fragments are `f`. */
  predicate Unfinished(f: seq<byte>, w: seq<byte>, q: nat) {
    Partial(w, q) && (|f| < 4 || (f[0] == 1 && |f| < 4 + 65536 * (f[1] as int) + 256 * (f[2] as int) + f[3]))
  }

  lemma SplitsMean(w: seq<byte>, rs: seq<Record>, r: Scanned)
    requires Splits(INITIAL, w, 0, rs, r)
    ensures Printable(rs) && PrintAll(rs) <= w
    ensures var f, q := Flatten(Fragments(rs)), |PrintAll(rs)|;
      match r
      case Finish(Ok, out) =>
        && out.Some?
        && (StartsWell(f, out.value) || (OldHello(w, q) && out.value.version == [w[q + 3], w[q + 4]]))
      case Finish(Declined, out) => out == None && (StartsBadly(f) || Foreign(w, q))
      case Wait(_, _) => Unfinished(f, w, q)
  {
    hide Run, Feed, StartsWell, StartsBadly, Partial, Foreign, Flatten;
    assert w[0..|PrintAll(rs)|] == w[..|PrintAll(rs)|];
    match r
    case Wait(_, _) => FeedAgain(rs);
    case Finish(Ok, out) => if rs != [] && Feed(INITIAL, Fragments(rs)).Done? { FeedOk(rs, out.value); }
    case Finish(Declined, _) => if rs != [] && Feed(INITIAL, Fragments(rs)).Done? { FeedDeclined(rs); }
  }

  /**
   * What was received is a list of handshake records and something behind them, and the phase
   * - passes only if the records' fragments start with a message of the grammar, whose names it then
   *   shows, or if a version 2 hello follows them;
   * - declines only if no message of the grammar starts as the fragments do, or if something that
   *   is neither a handshake record nor a version 2 hello follows them;
   * - and otherwise lacks the rest of the record that follows and of the message.
   */
  lemma PhaseMeans(cap: nat, incoming: seq<byte>, sizes: seq<nat>, over: bool) returns (rs: seq<Record>)
    ensures Printable(rs)
    ensures var w := incoming[..Min(Total(sizes), Min(|incoming|, cap))];
      var f, q := Flatten(Fragments(rs)), |PrintAll(rs)|;
      && PrintAll(rs) <= w
      && match Deliver(INITIAL, 0, [], cap, incoming, sizes, over)
         case Passed(Ok, out) =>
           && out.Some?
           && (StartsWell(f, out.value) || (OldHello(w, q) && out.value.version == [w[q + 3], w[q + 4]]))
         case Passed(Declined, out) => out == None && (StartsBadly(f) || Foreign(w, q))
         case BufferFull => |w| == cap && Unfinished(f, w, q)
         case Closed => |w| < cap && over && Unfinished(f, w, q)
         case Pending => |w| < cap && !over && Unfinished(f, w, q)
  {
    hide Run, Feed, Scan, Deliver;
    DeliverIsReport(INITIAL, 0, [], cap, incoming, sizes, over);
    var w := incoming[..Min(Total(sizes), Min(|incoming|, cap))];
    assert Window([], incoming, cap, Total(sizes)) == w;
    rs := ScanSplits(INITIAL, w, 0);
    SplitsMean(w, rs, Scan(INITIAL, w, 0));
    hide *;
  }

  /** Whatever starts with a message of the grammar passes, in any records and any delivery that fit. */
  lemma Passes(m: Message, records: seq<Record>, post: seq<byte>, cap: nat, sizes: seq<nat>, over: bool)
    requires MessageOk(m) && Carries(PrintMessage(m), records, cap, sizes)
    ensures Deliver(INITIAL, 0, [], cap, PrintAll(records) + post, sizes, over) == Passed(Ok, Some(Shown(m)))
  {
    hide Run, MessageOk, PrintMessage, Shown, Deliver;
    Exactly(Flatten(Fragments(records)), Shown(m));
    DeliveredRun(records, post, cap, sizes, over);
  }
}
