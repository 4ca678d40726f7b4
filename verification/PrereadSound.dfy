/** The ClientHello parser accepts nothing but the messages of the grammar. */
module PrereadSound {
  import opened Bytes
  import opened PrereadSpec
  import opened PrereadChunks
  import opened PrereadRecords
  import opened PrereadRoundTrip
  import opened PrereadGrammar
  import opened Options

  // ----- the extensions -----

  ghost predicate IsOk(r: Outcome) { r.Done? && r.verdict == Ok }

  /** A run that ends well got through the current field, and the switch after it went on or ended well. */
  lemma StepBack(c: Ctx, b: seq<byte>) returns (field: seq<byte>, rest: seq<byte>)
    requires Valid(c) && IsOk(Run(c, b))
    ensures |field| == c.size && b == field + rest && Valid(Fill(c, field)) && Fill(c, field).size == 0
    ensures var next := Advance(Fill(c, field));
      && (next.Stop? ==> next.verdict == Ok && Run(c, b) == Done(Ok, OutputOf(next.ctx)))
      && (next.Go? ==> next.ctx.size <= next.ctx.left && Valid(next.ctx) && Run(c, b) == Run(next.ctx, rest))
  {
    hide Fill, Advance, FieldValid, Valid;
    TurnProgress(c, b);
    var n := Min(|b|, c.size);
    field, rest := b[..n], b[n..];
    FillValid(c, field);
  }

  lemma NextLeft(c: Ctx, b: seq<byte>)
    requires Valid(c) && Phase(c.state) == 0 && Turn(c, b).Next?
    ensures var d := Turn(c, b).ctx;
      && Valid(d) && Phase(d.state) == 0 && c.size <= |b| && d.left == c.left - c.size
      && (c.size == 0 ==> ZeroRank(d) < ZeroRank(c)) && c.size <= c.left
  {
    hide Fill, Advance, FieldValid;
    TurnProgress(c, b);
    var n := Min(|b|, c.size);
    var c' := Fill(c, b[..n]);
    FillValid(c, b[..n]);
    AdvanceDecreases(c');
  }

  /** All bytes of the message, once there, decide it. */
  lemma {:induction false} Ends(c: Ctx, b: seq<byte>)
    requires Valid(c) && Phase(c.state) == 0 && Run(c, b).Again?
    ensures |b| < c.left
    decreases c.left, ZeroRank(c)
  {
    hide Fill, Advance, FieldValid;
    TurnProgress(c, b);
    var n := Min(|b|, c.size);
    match Turn(c, b) {
      case Next(d) =>
        NextLeft(c, b);
        Ends(d, b[n..]);
      case More(d) =>
      case Halt(_, _) =>
    }
  }

  function AfterField(c: Ctx, field: seq<byte>): Ctx
    requires |field| <= |c.buf| && |field| <= c.left
  {
    c.(buf := field + c.buf[|field|..], dst := InBuf(|field|), size := 0, left := c.left - |field|)
  }

  lemma FilledBuf(c: Ctx, field: seq<byte>)
    requires Valid(c) && c.dst == InBuf(0) && |field| == c.size && c.state != Start
    ensures |field| <= 4 && |field| <= c.left && |c.buf| == 4 && Fill(c, field) == AfterField(c, field)
  {
    FillBuf(c, field);
  }

  /** The same for a field read into `buf`. */
  lemma BackBuf(c: Ctx, b: seq<byte>) returns (field: seq<byte>, rest: seq<byte>)
    requires Valid(c) && c.dst == InBuf(0) && c.state != Start && IsOk(Run(c, b))
    ensures |field| == c.size <= 4 && c.size <= c.left && |c.buf| == 4 && b == field + rest
    ensures Valid(AfterField(c, field))
    ensures var next := Advance(AfterField(c, field));
      && (next.Stop? ==> next.verdict == Ok && Run(c, b) == Done(Ok, OutputOf(next.ctx)))
      && (next.Go? ==> next.ctx.size <= next.ctx.left && Valid(next.ctx) && Run(c, b) == Run(next.ctx, rest))
  {
    hide Run, Valid, Fill, Advance, Turn;
    field, rest := StepBack(c, b);
    FilledBuf(c, field);
  }

  lemma BackHeader(c: Ctx, b: seq<byte>) returns (header: seq<byte>, rest: seq<byte>)
    requires Between(c) && 0 < c.left && IsOk(Run(c, b))
    ensures |header| == 4 <= c.left && b == header + rest
    ensures var c' := WithHeader(c, header);
      && Valid(c') && Advance(c').Go?
      && var d := Advance(c').ctx; d.size <= d.left && Valid(d) && Run(c, b) == Run(d, rest)
  {
    hide Run, Fill, Turn;
    var none, all := StepBack(c, b);
    FillNothing(c);
    assert none == [] && all == b;
    var c1 := Want(c, ExtHeader, InBuf(0), 4);
    assert Advance(c) == Go(c1);
    header, rest := BackBuf(c1, b);
    assert header + c1.buf[4..] == header;
    assert AfterField(c1, header) == WithHeader(c, header);
  }

  /** A field whose bytes are skipped. */
  lemma BackSkip(c: Ctx, b: seq<byte>) returns (field: seq<byte>, rest: seq<byte>)
    requires Valid(c) && c.dst == Null && IsOk(Run(c, b))
    ensures |field| == c.size <= c.left && b == field + rest
  {
    field, rest := StepBack(c, b);
    assert Valid(c) ==> c.size <= c.left;
  }

  lemma Put16Of(x: seq<byte>)
    requires |x| == 2
    ensures U16(x[0], x[1]) < 0x10000 && Put16(U16(x[0], x[1])) == x
  {
  }

  lemma NameHeadOf(head: seq<byte>)
    requires |head| == 3 && head[0] == 0
    ensures U16(head[1], head[2]) < 0x10000 && NameHead(U16(head[1], head[2])) == head
  {
    Put16Of(head[1..]);
  }

  lemma BackHostHead(c: Ctx, b: seq<byte>) returns (size: nat, d: Ctx, rest: seq<byte>)
    requires Valid(c) && c.state == SniHostHead && c.size == 3 && c.dst == InBuf(0) && IsOk(Run(c, b))
    ensures size < 0x10000 && 3 + size <= c.ext && 3 + size <= c.left
    ensures Valid(d) && b == NameHead(size) + rest && Run(c, b) == Run(d, rest)
    ensures d.state == SniHost && d.size == size && d.ext == c.ext - 3 - size && d.left == c.left - 3
  {
    hide Run, Fill, Turn, NameHead;
    var head;
    head, rest := BackBuf(c, b);
    var c' := AfterField(c, head);
    assert c'.buf[..3] == head;
    size := U16(head[1], head[2]);
    d := Advance(c').ctx;
    NameHeadOf(head);
  }

  lemma BackServerLen(c: Ctx, b: seq<byte>) returns (len: seq<byte>, d: Ctx, rest: seq<byte>)
    requires Valid(c) && c.state == SniLen && c.size == 2 && c.dst == InBuf(0) && IsOk(Run(c, b))
    ensures Valid(d) && |len| == 2 && b == len + rest && Run(c, b) == Run(d, rest)
    ensures d.state == SniHostHead && d.size == 3 && d.dst == InBuf(0)
    ensures d.ext == U16(len[0], len[1]) && d.left == c.left - 2
  {
    hide Run, Fill, Turn;
    len, rest := BackBuf(c, b);
    d := Advance(AfterField(c, len)).ctx;
  }

  lemma BackHost(c: Ctx, b: seq<byte>) returns (host: seq<byte>, otherNames: seq<byte>, rest: seq<byte>)
    requires Valid(c) && c.state == SniHost && IsOk(Run(c, b))
    ensures |host| == c.size && |otherNames| == c.ext && |host| + |otherNames| <= c.left
    ensures b == host + (otherNames + rest)
  {
    hide Run, Turn;
    var more;
    host, more := StepBack(c, b);
    var d := Advance(Fill(c, host)).ctx;
    hide Fill, Advance;
    otherNames, rest := BackSkip(d, more);
  }

  lemma SoundServerNames(c: Ctx, b: seq<byte>) returns (host: seq<byte>, otherNames: seq<byte>, rest: seq<byte>)
    requires Valid(c) && c.state == SniLen && c.size == 2 && c.dst == InBuf(0) && IsOk(Run(c, b))
    ensures 3 + |host| + |otherNames| < 0x10000 && 5 + |host| + |otherNames| <= c.left
    ensures b == Block16(PrintServerNames(host, otherNames)) + rest
  {
    hide Run, Advance, Fill, Turn, NameHead, U16, Put16;
    var len, c1, b1 := BackServerLen(c, b);
    var size, c2, b2 := BackHostHead(c1, b1);
    host, otherNames, rest := BackHost(c2, b2);
    Put16Of(len);
    assert PrintServerNames(host, otherNames) + rest == NameHead(size) + (host + (otherNames + rest));
    assert Block16(PrintServerNames(host, otherNames)) + rest == len + (PrintServerNames(host, otherNames) + rest);
  }

  /** The length of a protocol name. */
  lemma BackNameLen(c: Ctx, b: seq<byte>) returns (n: nat, d: Ctx, rest: seq<byte>)
    requires Valid(c) && c.state == AlpnProtoLen && c.size == 1 && c.dst == InBuf(0) && IsOk(Run(c, b))
    ensures Valid(d) && 0 < n < 0x100 && 1 + n <= c.ext && 1 + n <= c.left
    ensures b == [n] + rest && Run(c, b) == Run(d, rest)
    ensures d.state == AlpnProtoData && d.size == n && d.ext == c.ext - 1 - n && d.left == c.left - 1
  {
    hide Run, Fill, Turn;
    var field;
    field, rest := BackBuf(c, b);
    n := field[0];
    d := Advance(AfterField(c, field)).ctx;
    assert [n] == field;
  }

  /** The name, and the length of the next one if there is one. */
  lemma BackName(c: Ctx, b: seq<byte>) returns (name: seq<byte>, d: Ctx, rest: seq<byte>)
    requires Valid(c) && c.state == AlpnProtoData && IsOk(Run(c, b))
    ensures |name| == c.size && b == name + rest
    ensures c.ext > 0 ==>
      && Valid(d) && Run(c, b) == Run(d, rest)
      && d.state == AlpnProtoLen && d.size == 1 && d.dst == InBuf(0) && d.ext == c.ext && d.left == c.left - c.size
  {
    hide Run, Turn;
    name, rest := StepBack(c, b);
    d := Advance(Fill(c, name)).ctx;
  }

  lemma {:induction false} SoundNames(c: Ctx, b: seq<byte>) returns (names: seq<seq<byte>>, rest: seq<byte>)
    requires Valid(c) && c.state == AlpnProtoLen && c.size == 1 && c.dst == InBuf(0) && IsOk(Run(c, b))
    ensures names != [] && NamesFormed(names) && |PrintNames(names)| == c.ext <= c.left
    ensures b == PrintNames(names) + rest
    decreases c.ext
  {
    hide Run, Advance, Fill, Turn, OutputOf, FieldValid;
    var n, c1, b1 := BackNameLen(c, b);
    var name, d, b2 := BackName(c1, b1);
    names, rest := [name], b2;
    assert PrintNames([]) == [] && Block8(name) + b2 == [n] + (name + b2);
    if c1.ext > 0 {
      var others;
      others, rest := SoundNames(d, b2);
      names := [name] + others;
      assert names[1..] == others;
      hide Block8;
      assert PrintNames(names) + rest == Block8(name) + (PrintNames(others) + rest);
    } else {
      assert names[1..] == [] && PrintNames(names) == Block8(name) + [] == Block8(name);
    }
  }

  lemma SoundProtocols(c: Ctx, b: seq<byte>) returns (names: seq<seq<byte>>, rest: seq<byte>)
    requires Valid(c) && c.state == AlpnLen && c.size == 2 && c.dst == InBuf(0) && IsOk(Run(c, b))
    ensures names != [] && NamesFormed(names) && |PrintNames(names)| < 0x10000
    ensures 2 + |PrintNames(names)| <= c.left && b == Block16(PrintNames(names)) + rest
  {
    hide Run, Fill, Turn, Put16, U16;
    var len, more := BackBuf(c, b);
    var d := Advance(AfterField(c, len)).ctx;
    Put16Of(len);
    assert len + c.buf[2..] == AfterField(c, len).buf;
    names, rest := SoundNames(d, more);
    assert Block16(PrintNames(names)) + rest == len + (PrintNames(names) + rest);
  }

  lemma SoundVersions(c: Ctx, b: seq<byte>) returns (versions: seq<byte>, rest: seq<byte>)
    requires Valid(c) && c.state == SupverLen && c.size == 1 && c.dst == InBuf(0) && IsOk(Run(c, b))
    ensures |versions| < 0x100 && 1 + |versions| <= c.left && b == Block8(versions) + rest
  {
    hide Run, Fill, Turn;
    var n, more := BackBuf(c, b);
    var d := Advance(AfterField(c, n)).ctx;
    versions, rest := BackSkip(d, more);
    assert [n[0]] == n;
    assert Block8(versions) + rest == n + (versions + rest);
  }

  /** What the four bytes of an extension's header lead to. */
  lemma IntoItem(c: Ctx, header: seq<byte>)
    requires Between(c) && 4 <= c.left && |header| == 4 && Valid(WithHeader(c, header))
    ensures WithHeader(c, header).size == 0
    ensures var r := Advance(WithHeader(c, header));
      && r.Go? && r.ctx.left == c.left - 4
      && if header[0] == 0 && header[1] == 0 && c.host.NoData? then
           r.ctx.state == SniLen && r.ctx.size == 2 && r.ctx.dst == InBuf(0)
         else if header[0] == 0 && header[1] == 16 && c.alpn.NoData? then
           r.ctx.state == AlpnLen && r.ctx.size == 2 && r.ctx.dst == InBuf(0)
         else if header[0] == 0 && header[1] == 43 then
           r.ctx.state == SupverLen && r.ctx.size == 1 && r.ctx.dst == InBuf(0)
         else r.ctx.dst == Null && r.ctx.size == U16(header[2], header[3])
  {
  }

  lemma ItemPrinted(it: Item, header: seq<byte>, rest: seq<byte>, b: seq<byte>, left: nat)
    requires Sized(it) && HeaderFor(it) == header && b == header + (BodyOf(it) + rest) && 4 + |BodyOf(it)| <= left
    ensures |PrintItem(it)| <= left && b == PrintItem(it) + rest
  {
    hide HeaderFor, BodyOf, Sized;
    assert PrintItem(it) + rest == header + (BodyOf(it) + rest);
  }

  lemma HeaderParts(header: seq<byte>)
    requires |header| == 4
    ensures header == header[..2] + header[2..] && |header[..2]| == |header[2..]| == 2
    ensures header[..2][0] == header[0] && header[..2][1] == header[1]
    ensures header[2..][0] == header[2] && header[2..][1] == header[3]
    ensures forall lo: byte :: header[0] == 0 && header[1] == lo ==> header[..2] == [0, lo]
  {
  }

  lemma BetweenValid(c: Ctx)
    requires Between(c)
    ensures Valid(c)
  {
  }

  lemma HostItem(out: Output, header: seq<byte>, host: seq<byte>, otherNames: seq<byte>) returns (it: Item)
    requires |header| == 4 && header[..2] == [0, 0] && out.host.None? && 3 + |host| + |otherNames| < 0x10000
    ensures Sized(it) && InTurn(out, it) && HeaderFor(it) == header
    ensures BodyOf(it) == Block16(PrintServerNames(host, otherNames)) && |BodyOf(it)| == 5 + |host| + |otherNames|
  {
    it := Host(header[2..], host, otherNames);
    assert header == header[..2] + header[2..];
  }

  lemma NamesItem(out: Output, header: seq<byte>, names: seq<seq<byte>>) returns (it: Item)
    requires |header| == 4 && header[..2] == [0, 16] && out.alpn.None?
    requires names != [] && NamesFormed(names) && |PrintNames(names)| < 0x10000
    ensures Sized(it) && InTurn(out, it) && HeaderFor(it) == header
    ensures BodyOf(it) == Block16(PrintNames(names)) && |BodyOf(it)| == 2 + |PrintNames(names)|
  {
    it := Names(header[2..], names);
    assert header == header[..2] + header[2..];
  }

  lemma VersionsItem(out: Output, header: seq<byte>, versions: seq<byte>) returns (it: Item)
    requires |header| == 4 && header[..2] == [0, 43] && |versions| < 0x100
    ensures Sized(it) && InTurn(out, it) && HeaderFor(it) == header
    ensures BodyOf(it) == Block8(versions) && |BodyOf(it)| == 1 + |versions|
  {
    it := Versions(header[2..], versions);
    assert header == header[..2] + header[2..];
  }

  lemma SkippedItem(out: Output, header: seq<byte>, body: seq<byte>) returns (it: Item)
    requires |header| == 4 && |body| == U16(header[2], header[3])
    requires !(header[0] == 0 && header[1] == 43)
    requires header[0] == 0 && header[1] == 0 ==> out.host.Some?
    requires header[0] == 0 && header[1] == 16 ==> out.alpn.Some?
    ensures Sized(it) && InTurn(out, it) && HeaderFor(it) == header && BodyOf(it) == body
  {
    it := Skipped(header[..2], body);
    Put16Of(header[2..]);
    assert header == header[..2] + header[2..];
  }

  lemma SoundItem(c: Ctx, b: seq<byte>) returns (it: Item, rest: seq<byte>)
    requires Between(c) && 0 < c.left && IsOk(Run(c, b))
    ensures Sized(it) && InTurn(OutputOf(c), it) && |PrintItem(it)| <= c.left && b == PrintItem(it) + rest
  {
    hide *;
    var header, more := BackHeader(c, b);
    assert Valid(c) && c.left >= 4 by { BetweenValid(c); }
    IntoItem(c, header);
    BetweenOutput(c);
    HeaderParts(header);
    var d := Advance(WithHeader(c, header)).ctx;
    var stated := header[2..];
    if header[0] == 0 && header[1] == 0 && c.host.NoData? {
      var host, otherNames;
      host, otherNames, rest := SoundServerNames(d, more);
      it := HostItem(OutputOf(c), header, host, otherNames);
    } else if header[0] == 0 && header[1] == 16 && c.alpn.NoData? {
      var names;
      names, rest := SoundProtocols(d, more);
      it := NamesItem(OutputOf(c), header, names);
    } else if header[0] == 0 && header[1] == 43 {
      var versions;
      versions, rest := SoundVersions(d, more);
      it := VersionsItem(OutputOf(c), header, versions);
    } else {
      var body;
      body, rest := BackSkip(d, more);
      it := SkippedItem(OutputOf(c), header, body);
    }
    ItemPrinted(it, header, rest, b, c.left);
  }

  lemma AtEnd(c: Ctx, b: seq<byte>)
    requires Between(c) && c.left == 0
    ensures Run(c, b) == Done(Ok, OutputOf(c))
  {
    RunEnd(c, b);
  }

  lemma {:induction false} SoundItems(c: Ctx, b: seq<byte>) returns (items: seq<Item>, rest: seq<byte>)
    requires Between(c) && IsOk(Run(c, b))
    ensures AllSized(items) && AllInTurn(OutputOf(c), items) && |PrintItems(items)| == c.left
    ensures b == PrintItems(items) + rest && Run(c, b) == Done(Ok, ShowsAll(OutputOf(c), items))
    decreases c.left
  {
    hide Run, Turn, Valid, OutputOf, Shows, PrintItem, Sized, InTurn;
    if c.left == 0 {
      items, rest := [], b;
      assert PrintItems(items) + rest == b;
      AtEnd(c, b);
    } else {
      var it, more := SoundItem(c, b);
      var d := RunItem(c, it, more);
      var others;
      others, rest := SoundItems(d, more);
      items := [it] + others;
      assert items[1..] == others;
      assert PrintItems(items) + rest == PrintItem(it) + (PrintItems(others) + rest);
    }
  }

  // ----- the fields before the extensions -----

  lemma Digits(hi: byte, mid: byte, lo: byte)
    ensures U24(hi, mid, lo) < 0x1000000 && Put24(U24(hi, mid, lo)) == [hi, mid, lo]
  {
    var n := U24(hi, mid, lo);
    assert n / 0x10000 == hi;
    assert n / 0x100 == hi * 0x100 + mid;
  }

  lemma HeadOf(head: seq<byte>)
    requires |head| == 4 && head[0] == 1
    ensures U24(head[1], head[2], head[3]) < 0x1000000 && MessageHead(U24(head[1], head[2], head[3])) == head
  {
    Digits(head[1], head[2], head[3]);
    hide U24;
    assert [1] + [head[1], head[2], head[3]] == head;
  }

  lemma FillVersion(c: Ctx, version: seq<byte>)
    requires Valid(c) && c.dst == InVersion(0) && |version| == c.size == 2
    ensures Fill(c, version) == c.(version := version, dst := InVersion(2), size := 0, left := c.left - 2)
  {
  }

  lemma FillSkipped(c: Ctx, bytes: seq<byte>)
    requires Valid(c) && c.dst == Null && |bytes| == c.size
    ensures Fill(c, bytes) == c.(size := 0, left := c.left - |bytes|)
  {
  }

  lemma BackType(b: seq<byte>) returns (len: nat, c: Ctx, rest: seq<byte>)
    requires IsOk(Run(INITIAL, b))
    ensures 2 <= len < 0x1000000 && b == MessageHead(len) + rest
    ensures Valid(c) && c.state == State.Version && c.size == 2 && c.dst == InVersion(0) && c.left == len
    ensures c.host.NoData? && c.alpn.NoData? && Run(INITIAL, b) == Run(c, rest)
  {
    hide Run, Fill, Turn, MessageHead;
    var none, all := StepBack(INITIAL, b);
    FillNothing(INITIAL);
    assert all == b;
    var c1 := Want(INITIAL, Header, InBuf(0), 4).(left := 4);
    var head;
    head, rest := BackBuf(c1, b);
    assert head + c1.buf[4..] == head;
    len := U24(head[1], head[2], head[3]);
    HeadOf(head);
    c := Advance(AfterField(c1, head)).ctx;
  }

  /** Message type, length, version and random. */
  lemma BackIntro(b: seq<byte>) returns (len: nat, version: seq<byte>, random: seq<byte>, c: Ctx, rest: seq<byte>)
    requires IsOk(Run(INITIAL, b))
    ensures |version| == 2 && |random| == 32 && 35 <= len < 0x1000000
    ensures b == MessageHead(len) + version + random + rest
    ensures Awaits(c, SidLen, 1, version) && c.left == len - 34 && Run(INITIAL, b) == Run(c, rest)
  {
    hide Run, Fill, Turn, MessageHead;
    var c2, b1;
    len, c2, b1 := BackType(b);
    var b2;
    version, b2 := StepBack(c2, b1);
    FillVersion(c2, version);
    var c3 := Advance(Fill(c2, version)).ctx;
    random, rest := StepBack(c3, b2);
    FillSkipped(c3, random);
    c := Advance(Fill(c3, random)).ctx;
    assert b == MessageHead(len) + version + random + rest;
  }

  lemma Block8Of(n: seq<byte>, s: seq<byte>, rest: seq<byte>)
    requires |n| == 1 && n[0] == |s|
    ensures n + (s + rest) == Block8(s) + rest
  {
    assert n == [n[0]];
  }

  /** A block with a one-byte length, and the next field. */
  lemma BackSession(c: Ctx, b: seq<byte>, version: seq<byte>) returns (s: seq<byte>, d: Ctx, rest: seq<byte>)
    requires Awaits(c, SidLen, 1, version) && IsOk(Run(c, b))
    ensures |s| < 0x100 && |s| + 3 <= c.left && b == Block8(s) + rest
    ensures Awaits(d, CsLen, 2, version) && d.left == c.left - 1 - |s| && Run(c, b) == Run(d, rest)
  {
    hide Run, Fill, Turn, Block8;
    var n, more := BackBuf(c, b);
    var c1 := Advance(AfterField(c, n)).ctx;
    s, rest := StepBack(c1, more);
    FillSkipped(c1, s);
    d := Advance(Fill(c1, s)).ctx;
    Block8Of(n, s, rest);
  }

  lemma BackSuites(c: Ctx, b: seq<byte>, version: seq<byte>) returns (s: seq<byte>, d: Ctx, rest: seq<byte>)
    requires Awaits(c, CsLen, 2, version) && IsOk(Run(c, b))
    ensures |s| < 0x10000 && |s| + 3 <= c.left && b == Block16(s) + rest
    ensures Awaits(d, CmLen, 1, version) && d.left == c.left - 2 - |s| && Run(c, b) == Run(d, rest)
  {
    hide Run, Fill, Turn, U16, Put16;
    var n, more := BackBuf(c, b);
    assert (n + c.buf[2..])[0] == n[0] && (n + c.buf[2..])[1] == n[1];
    var c1 := Advance(AfterField(c, n)).ctx;
    s, rest := StepBack(c1, more);
    FillSkipped(c1, s);
    d := Advance(Fill(c1, s)).ctx;
    Put16Of(n);
    assert Block16(s) + rest == n + (s + rest);
  }

  lemma BackLength(c: Ctx, b: seq<byte>) returns (n: byte, d: Ctx, rest: seq<byte>)
    requires Valid(c) && c.state == CmLen && c.size == 1 && c.dst == InBuf(0) && IsOk(Run(c, b))
    ensures Valid(d) && d.size == n && n + 1 <= c.left && b == [n] + rest && Run(c, b) == Run(d, rest)
  {
    hide Run, Fill, Turn;
    var field;
    field, rest := BackBuf(c, b);
    n := field[0];
    d := Advance(AfterField(c, field)).ctx;
    assert [n] == field;
  }

  lemma BackCompressions(c: Ctx, b: seq<byte>, version: seq<byte>) returns (s: seq<byte>, d: Ctx, rest: seq<byte>)
    requires Awaits(c, CmLen, 1, version) && IsOk(Run(c, b))
    ensures |s| < 0x100 && |s| + 1 <= c.left && b == Block8(s) + rest
    ensures Valid(d) && d.state == Cm && d.size == 0 && d.left == c.left - 1 - |s|
    ensures OutputOf(d) == Output(version, None, None) && Run(c, b) == Run(d, rest)
  {
    hide Run, Fill, Turn, OutputOf;
    var n, c1, more := BackLength(c, b);
    s, rest := StepBack(c1, more);
    assert Block8(s) + rest == [n] + (s + rest);
    d := RunCompressions(c, s, rest, version);
  }

  lemma BackStated(c: Ctx, b: seq<byte>) returns (stated: seq<byte>, d: Ctx, rest: seq<byte>)
    requires Valid(c) && c.state == Cm && c.size == 0 && 0 < c.left && IsOk(Run(c, b))
    ensures |stated| == 2 <= c.left && b == stated + rest
    ensures Between(d) && d.left == c.left - 2 && OutputOf(d) == OutputOf(c) && Run(c, b) == Run(d, rest)
  {
    hide Run, Fill, Turn;
    var none, all := StepBack(c, b);
    FillNothing(c);
    assert all == b;
    var c1 := Want(c, Ext, InBuf(0), 2);
    stated, rest := StepBack(c1, b);
    d := RunStated(c, stated, rest);
  }

  lemma Together(m: Message, b: seq<byte>, len: nat, rest: seq<byte>,
                 b1: seq<byte>, b2: seq<byte>, b3: seq<byte>, b4: seq<byte>)
    requires |m.version| == 2 && |m.random| == 32 && |m.sessionId| < 0x100 && |m.suites| < 0x10000
    requires |m.compressions| < 0x100 && m.block == None && len < 0x1000000
    requires len == 38 + |m.sessionId| + |m.suites| + |m.compressions|
    requires b == MessageHead(len) + m.version + m.random + b1
    requires b1 == Block8(m.sessionId) + b2 && b2 == Block16(m.suites) + b3 && b3 == Block8(m.compressions) + b4
    requires b4 == rest
    ensures MessageOk(m) && b == PrintMessage(m) + rest && Shown(m) == Output(m.version, None, None)
  {
    hide MessageHead, Block8, Block16;
    StartParts(m, len, rest);
    ContentParts(m, rest);
  }

  lemma TogetherBlock(m: Message, b: seq<byte>, len: nat, rest: seq<byte>,
                      b1: seq<byte>, b2: seq<byte>, b3: seq<byte>, b4: seq<byte>, b5: seq<byte>)
    requires |m.version| == 2 && |m.random| == 32 && |m.sessionId| < 0x100 && |m.suites| < 0x10000
    requires |m.compressions| < 0x100 && m.block.Some? && len < 0x1000000
    requires |m.block.value.0| == 2 && AllSized(m.block.value.1)
    requires AllInTurn(Output(m.version, None, None), m.block.value.1)
    requires len == 38 + |m.sessionId| + |m.suites| + |m.compressions| + 2 + |PrintItems(m.block.value.1)|
    requires b == MessageHead(len) + m.version + m.random + b1
    requires b1 == Block8(m.sessionId) + b2 && b2 == Block16(m.suites) + b3 && b3 == Block8(m.compressions) + b4
    requires b4 == m.block.value.0 + b5 && b5 == PrintItems(m.block.value.1) + rest
    ensures MessageOk(m) && b == PrintMessage(m) + rest
    ensures Shown(m) == ShowsAll(Output(m.version, None, None), m.block.value.1)
  {
    hide MessageHead, Block8, Block16, PrintItems, AllInTurn;
    assert |PrintContent(m)| == len;
    StartParts(m, len, b4);
    ContentParts(m, rest);
  }

  /** Whatever is accepted starts with a message of the grammar, and shows what that says. */
  lemma Sound(b: seq<byte>) returns (m: Message, rest: seq<byte>)
    requires IsOk(Run(INITIAL, b))
    ensures MessageOk(m) && b == PrintMessage(m) + rest && Run(INITIAL, b) == Done(Ok, Shown(m))
  {
    hide *;
    var len, version, random, c1, b1 := BackIntro(b);
    var sessionId, c2, b2 := BackSession(c1, b1, version);
    var suites, c3, b3 := BackSuites(c2, b2, version);
    var compressions, c4, b4 := BackCompressions(c3, b3, version);
    if c4.left == 0 {
      rest := b4;
      m := Message(version, random, sessionId, suites, compressions, None);
      RunEnd(c4, b4);
      Together(m, b, len, rest, b1, b2, b3, b4);
    } else {
      var stated, d, b5 := BackStated(c4, b4);
      var items;
      items, rest := SoundItems(d, b5);
      m := Message(version, random, sessionId, suites, compressions, Some((stated, items)));
      TogetherBlock(m, b, len, rest, b1, b2, b3, b4, b5);
    }
  }

  lemma IsOkThen(b: seq<byte>, out: Output)
    requires Run(INITIAL, b) == Done(Ok, out)
    ensures IsOk(Run(INITIAL, b))
  {
  }

  /** The parser accepts exactly the messages of the grammar, and shows exactly what they say. */
  lemma Exactly(b: seq<byte>, out: Output)
    ensures Run(INITIAL, b) == Done(Ok, out) <==> exists m :: MessageOk(m) && PrintMessage(m) <= b && Shown(m) == out
  {
    hide Run, MessageOk, PrintMessage, Shown;
    if Run(INITIAL, b) == Done(Ok, out) {
      IsOkThen(b, out);
      var m, rest := Sound(b);
      assert PrintMessage(m) <= b;
    }
    if exists m :: MessageOk(m) && PrintMessage(m) <= b && Shown(m) == out {
      var m :| MessageOk(m) && PrintMessage(m) <= b && Shown(m) == out;
      Accepted(m, b[|PrintMessage(m)|..]);
      assert b == PrintMessage(m) + b[|PrintMessage(m)|..];
    }
  }
}
