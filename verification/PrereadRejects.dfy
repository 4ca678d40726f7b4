/** What the ClientHello parser declines, and when it has decided. */
module PrereadRejects {
  import opened Bytes
  import opened PrereadSpec
  import opened PrereadChunks
  import opened PrereadRecords
  import opened PrereadRoundTrip
  import opened PrereadGrammar
  import opened PrereadSound
  import opened Options

  // ----- when the parser has decided -----

  ghost predicate IsDeclined(r: Outcome) { r.Done? && r.verdict == Declined }

  /** The type and the length of the message. */
  lemma Head(b: seq<byte>) returns (d: Ctx)
    requires 4 <= |b|
    ensures b[0] != 1 || U24(b[1], b[2], b[3]) < 2 ==> IsDeclined(Run(INITIAL, b))
    ensures b[0] == 1 && 2 <= U24(b[1], b[2], b[3]) ==>
      && Valid(d) && Phase(d.state) == 0 && d.left == U24(b[1], b[2], b[3]) && Run(INITIAL, b) == Run(d, b[4..])
  {
    hide Run, Fill, U24;
    var c := Want(INITIAL, Header, InBuf(0), 4).(left := 4);
    RunComplete(INITIAL, b, c);
    FillBuf(c, b[..4]);
    assert b[..4] + c.buf[4..] == b[..4];
    var c' := Fill(c, b[..4]);
    FillValid(c, b[..4]);
    TurnProgress(c, b);
    RunUnfolds(c, b);
    d := if Advance(c').Go? then Advance(c').ctx else c;
  }

  /** A message is decided at the latest when all its bytes are there. */
  lemma Decided(b: seq<byte>)
    requires 4 <= |b| && (b[0] != 1 || 4 + U24(b[1], b[2], b[3]) <= |b|)
    ensures Run(INITIAL, b).Done?
  {
    hide Run, U24;
    var d := Head(b);
    if b[0] == 1 && 2 <= U24(b[1], b[2], b[3]) && Run(d, b[4..]).Again? {
      Ends(d, b[4..]);
    }
  }

  /** A field that is refused, or that leaves too little of the message for the next one. */
  lemma Rejected(c: Ctx, field: seq<byte>, rest: seq<byte>)
    requires Valid(c) && |field| == c.size && Valid(Fill(c, field))
    requires var next := Advance(Fill(c, field));
      if next.Stop? then next.verdict == Declined else next.ctx.left < next.ctx.size
    ensures IsDeclined(Run(c, field + rest))
  {
    hide Fill, Advance, FieldValid;
    assert (field + rest)[..c.size] == field;
  }

  /** A first server name of another type than host_name, or longer than the list of names. */
  lemma BadHostHead(c: Ctx, head: seq<byte>, rest: seq<byte>)
    requires Valid(c) && c.state == SniHostHead && c.size == 3 && c.dst == InBuf(0) && |head| == 3
    requires head[0] != 0 || c.ext < 3 + U16(head[1], head[2])
    ensures IsDeclined(Run(c, head + rest))
  {
    hide Run, U16;
    FillBuf(c, head);
    FillValid(c, head);
    hide Fill;
    Rejected(c, head, rest);
  }

  lemma BadHost(c: Ctx, stated: seq<byte>, list: seq<byte>, head: seq<byte>, rest: seq<byte>)
    requires Between(c) && c.host.NoData? && 9 <= c.left && |stated| == |list| == 2 && |head| == 3
    requires head[0] != 0 || U16(list[0], list[1]) < 3 + U16(head[1], head[2])
    ensures IsDeclined(Run(c, [0, 0] + stated + (list + (head + rest))))
  {
    hide Run, Fill, U16;
    var c1 := RunInto(c, [0, 0] + stated, list + (head + rest));
    var c2 := Want(c1, SniHostHead, InBuf(0), 3).(
      ext := U16(list[0], list[1]), buf := list + c1.buf[2..], left := c1.left - 2);
    RunBuf(c1, list, head + rest, c2);
    hide Advance;
    BadHostHead(c2, head, rest);
  }

  /** An empty protocol name, or one longer than what is left of the list of protocols. */
  lemma BadName(c: Ctx, n: byte, rest: seq<byte>)
    requires Valid(c) && c.state == AlpnProtoLen && c.size == 1 && c.dst == InBuf(0) && (n == 0 || c.ext <= n)
    ensures IsDeclined(Run(c, [n] + rest))
  {
    hide Run;
    FillBuf(c, [n]);
    FillValid(c, [n]);
    hide Fill;
    Rejected(c, [n], rest);
  }

  lemma {:induction false} BadNameAfter(c: Ctx, names: seq<seq<byte>>, n: byte, rest: seq<byte>)
    requires Valid(c) && c.state == AlpnProtoLen && c.size == 1 && c.dst == InBuf(0)
    requires NamesFormed(names) && (names == [] || |PrintNames(names)| < c.ext) && |PrintNames(names)| < c.left
    requires n == 0 || c.ext <= |PrintNames(names)| + n
    ensures IsDeclined(Run(c, PrintNames(names) + ([n] + rest)))
    decreases |names|
  {
    hide Run, Fill, Advance, Block8, OutputOf, FieldValid;
    if names == [] {
      assert PrintNames(names) + ([n] + rest) == [n] + rest;
      BadName(c, n, rest);
    } else {
      var more := PrintNames(names[1..]) + ([n] + rest);
      assert |Block8(names[0])| == 1 + |names[0]|;
      var d := RunMiddleName(c, names[0], more);
      assert PrintNames(names) + ([n] + rest) == Block8(names[0]) + more;
      BadNameAfter(d, names[1..], n, rest);
    }
  }

  lemma BadProtocol(c: Ctx, stated: seq<byte>, list: seq<byte>, names: seq<seq<byte>>, n: byte, rest: seq<byte>)
    requires Between(c) && c.alpn.NoData? && |stated| == |list| == 2
    requires NamesFormed(names) && (names == [] || |PrintNames(names)| < U16(list[0], list[1]))
    requires 7 + |PrintNames(names)| <= c.left && (n == 0 || U16(list[0], list[1]) <= |PrintNames(names)| + n)
    ensures IsDeclined(Run(c, [0, 16] + stated + (list + (PrintNames(names) + ([n] + rest)))))
  {
    hide Run, Fill, U16, PrintNames;
    var more := PrintNames(names) + ([n] + rest);
    var c1 := RunInto(c, [0, 16] + stated, list + more);
    var c2 := Want(c1, AlpnProtoLen, InBuf(0), 1).(
      ext := U16(list[0], list[1]), alpn := Data(U16(list[0], list[1]), []), buf := list + c1.buf[2..],
      left := c1.left - 2);
    RunBuf(c1, list, more, c2);
    BadNameAfter(c2, names, n, rest);
  }

  /** The length of the extension at the start of `b`, read from its bytes. */
  function LengthOfItem(out: Output, b: seq<byte>): nat
    requires 4 <= |b|
  {
    if (b[0] == 0 && b[1] == 0 && out.host == None) || (b[0] == 0 && b[1] == 16 && out.alpn == None) then
      6 + if 6 <= |b| then U16(b[4], b[5]) else 0
    else if b[0] == 0 && b[1] == 43 then 5 + if 5 <= |b| then b[4] else 0
    else 4 + U16(b[2], b[3])
  }

  lemma ListLength(header: seq<byte>, list: seq<byte>, rest: seq<byte>)
    requires |header| == 4 && |list| < 0x10000
    ensures var b := header + Block16(list) + rest;
      6 <= |b| && b[0] == header[0] && b[1] == header[1] && U16(b[4], b[5]) == |list|
  {
    hide U16;
    assert (header + Block16(list) + rest)[4..6] == Put16(|list|);
  }

  lemma ItemLength(out: Output, it: Item, rest: seq<byte>)
    requires Sized(it) && InTurn(out, it)
    ensures 4 <= |PrintItem(it) + rest| && |PrintItem(it)| == LengthOfItem(out, PrintItem(it) + rest)
  {
    hide Put16, PrintNames, PrintServerNames, U16;
    var b := PrintItem(it) + rest;
    match it
    case Host(stated, host, otherNames) =>
      ListLength([0, 0] + stated, PrintServerNames(host, otherNames), rest);
    case Names(stated, names) =>
      ListLength([0, 16] + stated, PrintNames(names), rest);
    case Versions(stated, versions) => assert b[4] == |versions|;
    case Skipped(kind, body) => assert b[2..4] == Put16(|body|) && b[..2] == kind;
  }

  lemma SameItemLength(out: Output, it: Item, jt: Item, rest: seq<byte>, more: seq<byte>)
    requires Sized(it) && Sized(jt) && InTurn(out, it) && InTurn(out, jt)
    requires PrintItem(it) + rest == PrintItem(jt) + more
    ensures |PrintItem(it)| == |PrintItem(jt)|
  {
    hide *;
    ItemLength(out, it, rest);
    ItemLength(out, jt, more);
  }

  /** An extension that goes past the end of the message. */
  lemma ItemOverrun(c: Ctx, it: Item, rest: seq<byte>)
    requires Between(c) && Sized(it) && InTurn(OutputOf(c), it) && 0 < c.left < |PrintItem(it)|
    ensures IsDeclined(Run(c, PrintItem(it) + rest))
  {
    hide Run, Sized, InTurn, PrintItem, OutputOf, FieldValid;
    var b := PrintItem(it) + rest;
    if Run(c, b).Again? { Ends(c, b); }
    if IsOk(Run(c, b)) {
      var jt, more := SoundItem(c, b);
      SameItemLength(OutputOf(c), it, jt, rest, more);
    }
  }

  /** The length of the fields before the extension block, read from the bytes behind the message's length. */
  function LengthOfStart(b: seq<byte>): nat {
    if |b| < 35 then 0 else
      var sid := b[34];
      if |b| < 37 + sid then 0 else
        var cs := U16(b[35 + sid], b[36 + sid]);
        if |b| < 38 + sid + cs then 0 else 38 + sid + cs + b[37 + sid + cs]
  }

  lemma StartLength(m: Message, rest: seq<byte>)
    requires |m.version| == 2 && |m.random| == 32 && |m.sessionId| < 0x100
    requires |m.suites| < 0x10000 && |m.compressions| < 0x100
    ensures |PrintStart(m)| == LengthOfStart(PrintStart(m) + rest)
  {
    hide U16, Put16;
    var b, sid, cs := PrintStart(m) + rest, |m.sessionId|, |m.suites|;
    assert b[34] == sid;
    assert b[35 + sid..37 + sid] == Put16(cs);
    assert b[37 + sid + cs] == |m.compressions|;
  }

  lemma StartFits(m: Message, rest: seq<byte>)
    requires MessageOk(m)
    ensures var b := PrintMessage(m) + rest;
      4 <= |b| && LengthOfStart(b[4..]) <= U24(b[1], b[2], b[3])
  {
    hide PrintStart, PrintItems, MessageHead, LengthOfStart;
    var b := PrintMessage(m) + rest;
    assert b[..4] == MessageHead(|PrintContent(m)|);
    var tail := match m.block case None => [] case Some(block) => block.0 + PrintItems(block.1);
    assert b[4..] == PrintStart(m) + (tail + rest);
    StartLength(m, tail + rest);
  }

  lemma Otherwise(r: Outcome)
    requires r.Done? && !IsOk(r)
    ensures IsDeclined(r)
  {
  }

  /** Fields that go past the end of the message. */
  lemma StartOverrun(m: Message, len: nat, rest: seq<byte>)
    requires |m.version| == 2 && |m.random| == 32 && |m.sessionId| < 0x100
    requires |m.suites| < 0x10000 && |m.compressions| < 0x100 && len < |PrintStart(m)|
    ensures len < 0x1000000 && IsDeclined(Run(INITIAL, MessageHead(len) + PrintStart(m) + rest))
  {
    assert len < 0x1000000;
    var b := MessageHead(len) + PrintStart(m) + rest;
    assert b[..4] == MessageHead(len) && b[4..] == PrintStart(m) + rest;
    assert Valid(INITIAL) && b[0] == 1 && U24(b[1], b[2], b[3]) == len;
    hide *;
    Decided(b);
    StartLength(m, rest);
    if IsOk(Run(INITIAL, b)) {
      var n, more := Sound(b);
      StartFits(n, more);
    }
    Otherwise(Run(INITIAL, b));
  }

  /** One byte is no room for the length of the extension block. */
  lemma StatedOverrun(c: Ctx, rest: seq<byte>)
    requires Valid(c) && c.state == Cm && c.size == 0 && c.left == 1
    ensures IsDeclined(Run(c, rest))
  {
    hide Run;
    FillNothing(c);
    hide Fill;
    Rejected(c, [], rest);
    assert [] + rest == rest;
  }

  /** A message of which the start, the block's length and some extensions are as in the grammar. */
  ghost predicate Begun(m: Message, len: nat) {
    && |m.version| == 2 && |m.random| == 32 && |m.sessionId| < 0x100
    && |m.suites| < 0x10000 && |m.compressions| < 0x100 && len < 0x1000000
    && m.block.Some? && |m.block.value.0| == 2 && AllSized(m.block.value.1)
    && AllInTurn(Output(m.version, None, None), m.block.value.1)
    && |PrintContent(m)| <= len
  }

  /** Between two extensions of a message that says it has `len` bytes. */
  lemma Reach(m: Message, len: nat, rest: seq<byte>) returns (c: Ctx)
    requires Begun(m, len)
    ensures Between(c) && c.left == len - |PrintContent(m)| && OutputOf(c) == Shown(m)
    ensures Run(INITIAL, MessageHead(len) + PrintContent(m) + rest) == Run(c, rest)
  {
    hide Run, OutputOf, FieldValid, PrintStart, MessageHead, PrintItems;
    var (stated, items) := m.block.value;
    var c0 := RunStart(m, len, stated + (PrintItems(items) + rest));
    var c1 := RunStated(c0, stated, PrintItems(items) + rest);
    c := RunItems(c1, items, rest);
    assert MessageHead(len) + PrintContent(m) + rest
        == MessageHead(len) + PrintStart(m) + (stated + (PrintItems(items) + rest));
  }
}
