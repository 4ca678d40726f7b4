/**
 * What the ClientHello parser accepts, and what it makes of it: a grammar in which the fields the
 * parser skips are left open.
 */
module PrereadGrammar {
  import opened Bytes
  import opened PrereadSpec
  import opened PrereadChunks
  import opened PrereadRecords
  import opened PrereadRoundTrip
  import opened Options

  // ----- the grammar -----

  /**
   * An extension as the parser reads it. Of the three it looks into it skips the length in the
   * extension's header, `stated`, and believes the lengths inside.
   */
  datatype Item =
    | Host(stated: seq<byte>, host: seq<byte>, otherNames: seq<byte>)
    | Names(stated: seq<byte>, names: seq<seq<byte>>)
    | Versions(stated: seq<byte>, versions: seq<byte>)
    | Skipped(kind: seq<byte>, body: seq<byte>)

  /** `block` is the extension block, if there is one: its length, which is skipped, and what it holds. */
  datatype Message = Message(
    version: seq<byte>, random: seq<byte>, sessionId: seq<byte>, suites: seq<byte>,
    compressions: seq<byte>, block: Option<(seq<byte>, seq<Item>)>)

  /** The lengths fit their fields. */
  ghost predicate Sized(it: Item) {
    match it
    case Host(stated, host, otherNames) => |stated| == 2 && 3 + |host| + |otherNames| < 0x10000
    case Names(stated, names) =>
      |stated| == 2 && names != [] && NamesFormed(names) && |PrintNames(names)| < 0x10000
    case Versions(stated, versions) => |stated| == 2 && |versions| < 0x100
    case Skipped(kind, body) => |kind| == 2 && |body| < 0x10000
  }

  /** Only the first host name and the first protocol list are looked into. */
  predicate InTurn(out: Output, it: Item) {
    match it
    case Host(_, _, _) => out.host.None?
    case Names(_, _) => out.alpn.None?
    case Versions(_, _) => true
    case Skipped(kind, _) =>
      kind != [0, 43] && (kind == [0, 0] ==> out.host.Some?) && (kind == [0, 16] ==> out.alpn.Some?)
  }

  function HeaderFor(it: Item): (r: seq<byte>)
    requires Sized(it)
    ensures |r| == 4
  {
    match it
    case Host(stated, _, _) => [0, 0] + stated
    case Names(stated, _) => [0, 16] + stated
    case Versions(stated, _) => [0, 43] + stated
    case Skipped(kind, body) => kind + Put16(|body|)
  }

  function BodyOf(it: Item): seq<byte>
    requires Sized(it)
  {
    match it
    case Host(_, host, otherNames) => Block16(PrintServerNames(host, otherNames))
    case Names(_, names) => Block16(PrintNames(names))
    case Versions(_, versions) => Block8(versions)
    case Skipped(_, body) => body
  }

  function PrintItem(it: Item): (r: seq<byte>)
    requires Sized(it)
    ensures 4 <= |r|
  {
    HeaderFor(it) + BodyOf(it)
  }

  ghost predicate AllSized(items: seq<Item>) {
    forall i :: 0 <= i < |items| ==> Sized(items[i])
  }

  function PrintItems(items: seq<Item>): seq<byte>
    requires AllSized(items)
  {
    if items == [] then [] else PrintItem(items[0]) + PrintItems(items[1..])
  }

  /** What an extension adds to what has been seen. */
  function Shows(out: Output, it: Item): Output {
    match it
    case Host(_, host, _) => out.(host := Some(host))
    case Names(_, names) => out.(alpn := Some(Joined(names)))
    case Versions(_, _) => out.(version := [3, 4])
    case Skipped(_, _) => out
  }

  function ShowsAll(out: Output, items: seq<Item>): Output
    decreases |items|
  {
    if items == [] then out else ShowsAll(Shows(out, items[0]), items[1..])
  }

  ghost predicate AllInTurn(out: Output, items: seq<Item>)
    decreases |items|
  {
    items == [] || (InTurn(out, items[0]) && AllInTurn(Shows(out, items[0]), items[1..]))
  }

  function PrintStart(m: Message): seq<byte>
    requires |m.sessionId| < 0x100 && |m.suites| < 0x10000 && |m.compressions| < 0x100
  {
    m.version + m.random + Block8(m.sessionId) + Block16(m.suites) + Block8(m.compressions)
  }

  function PrintContent(m: Message): seq<byte>
    requires |m.sessionId| < 0x100 && |m.suites| < 0x10000 && |m.compressions| < 0x100
    requires m.block.Some? ==> AllSized(m.block.value.1)
  {
    PrintStart(m) + match m.block
                    case None => []
                    case Some(block) => block.0 + PrintItems(block.1)
  }

  ghost predicate MessageOk(m: Message) {
    && |m.version| == 2 && |m.random| == 32 && |m.sessionId| < 0x100
    && |m.suites| < 0x10000 && |m.compressions| < 0x100
    && (m.block.Some? ==>
          && |m.block.value.0| == 2 && AllSized(m.block.value.1)
          && AllInTurn(Output(m.version, None, None), m.block.value.1))
    && |PrintContent(m)| < 0x1000000
  }

  function PrintMessage(m: Message): seq<byte>
    requires MessageOk(m)
  {
    MessageHead(|PrintContent(m)|) + PrintContent(m)
  }

  /** What the variables then read. */
  function Shown(m: Message): Output {
    ShowsAll(Output(m.version, None, None), if m.block.Some? then m.block.value.1 else [])
  }

  lemma Regroup(a: seq<byte>, b: seq<byte>, c: seq<byte>, d: seq<byte>, e: seq<byte>)
    ensures a + (b + (c + d + e)) == a + (b + c) + d + e
  {
  }

  /** The extensions byte by byte. */
  lemma ItemBytes(it: Item)
    requires Sized(it)
    ensures it.Host? ==>
      var n, list := |it.host|, 3 + |it.host| + |it.otherNames|;
      PrintItem(it) == [0, 0] + it.stated + [list / 256, list % 256, 0, n / 256, n % 256] + it.host + it.otherNames
    ensures it.Names? ==>
      var list := |PrintNames(it.names)|;
      PrintItem(it) == [0, 16] + it.stated + [list / 256, list % 256] + PrintNames(it.names)
    ensures it.Versions? ==> PrintItem(it) == [0, 43] + it.stated + [|it.versions|] + it.versions
    ensures it.Skipped? ==> PrintItem(it) == it.kind + [|it.body| / 256, |it.body| % 256] + it.body
  {
    hide PrintNames;
    match it
    case Host(stated, host, otherNames) =>
      var list := Put16(|PrintServerNames(host, otherNames)|);
      assert list + NameHead(|host|) == [list[0], list[1], 0, |host| / 256, |host| % 256];
      Regroup([0, 0] + stated, list, NameHead(|host|), host, otherNames);
    case Names(_, _) =>
    case Versions(_, _) =>
    case Skipped(_, _) =>
  }

  // ----- everything in the grammar is accepted -----

  lemma KindOf(kind: seq<byte>)
    requires |kind| == 2
    ensures U16(kind[0], kind[1]) < 0x10000 && Put16(U16(kind[0], kind[1])) == kind
    ensures forall lo: byte :: kind == [0, lo] <==> U16(kind[0], kind[1]) == lo
  {
  }

  lemma RunItem(c: Ctx, it: Item, rest: seq<byte>) returns (d: Ctx)
    requires Between(c) && Sized(it) && InTurn(OutputOf(c), it) && |PrintItem(it)| <= c.left
    ensures Between(d) && d.left == c.left - |PrintItem(it)| && OutputOf(d) == Shows(OutputOf(c), it)
    ensures Run(c, PrintItem(it) + rest) == Run(d, rest)
  {
    hide Run, Turn, Put16, Fill, Advance, Valid, OutputOf, Block8, Block16, U16;
    BetweenOutput(c);
    var header, body := HeaderFor(it), BodyOf(it);
    assert PrintItem(it) + rest == header + (body + rest) == header + body + rest;
    match it
    case Host(_, host, otherNames) =>
      var c1 := RunInto(c, header, body + rest);
      d := RunServerNames(c1, host, otherNames, rest);
    case Names(_, names) =>
      var c1 := RunInto(c, header, body + rest);
      d := RunProtocols(c1, names, rest);
    case Versions(_, versions) =>
      var c1 := RunInto(c, header, body + rest);
      d := RunVersions(c1, versions, rest);
    case Skipped(kind, _) =>
      KindOf(kind);
      d := RunIgnored(c, U16(kind[0], kind[1]), body, rest);
  }

  lemma {:induction false} RunItems(c: Ctx, items: seq<Item>, rest: seq<byte>) returns (d: Ctx)
    requires Between(c) && AllSized(items) && AllInTurn(OutputOf(c), items) && |PrintItems(items)| <= c.left
    ensures Between(d) && d.left == c.left - |PrintItems(items)| && OutputOf(d) == ShowsAll(OutputOf(c), items)
    ensures Run(c, PrintItems(items) + rest) == Run(d, rest)
    decreases |items|
  {
    hide Run, Turn, Valid, OutputOf, Shows, PrintItem, Sized, InTurn;
    if items == [] {
      d := c;
      assert PrintItems(items) + rest == rest;
    } else {
      var more := PrintItems(items[1..]);
      assert PrintItems(items) + rest == PrintItem(items[0]) + (more + rest);
      var c1 := RunItem(c, items[0], more + rest);
      d := RunItems(c1, items[1..], rest);
    }
  }

  lemma StartParts(m: Message, len: nat, rest: seq<byte>)
    requires |m.sessionId| < 0x100 && |m.suites| < 0x10000 && |m.compressions| < 0x100 && len < 0x1000000
    ensures var sid, cs, cm := Block8(m.sessionId), Block16(m.suites), Block8(m.compressions);
      MessageHead(len) + PrintStart(m) + rest ==
      MessageHead(len) + m.version + m.random + (sid + (cs + (cm + rest)))
  {
    hide MessageHead, Block8, Block16;
  }

  /** The fields before the extension block, in a message that says it has `len` bytes. */
  lemma RunStart(m: Message, len: nat, rest: seq<byte>) returns (d: Ctx)
    requires |m.version| == 2 && |m.random| == 32 && |m.sessionId| < 0x100
    requires |m.suites| < 0x10000 && |m.compressions| < 0x100 && |PrintStart(m)| <= len < 0x1000000
    ensures Valid(d) && d.state == Cm && d.size == 0 && d.left == len - |PrintStart(m)|
    ensures OutputOf(d) == Output(m.version, None, None)
    ensures Run(INITIAL, MessageHead(len) + PrintStart(m) + rest) == Run(d, rest)
  {
    hide Run, MessageHead, Block8, Block16, OutputOf, FieldValid;
    var sid, cs, cm := Block8(m.sessionId), Block16(m.suites), Block8(m.compressions);
    assert |PrintStart(m)| == 38 + |m.sessionId| + |m.suites| + |m.compressions|;
    var c1 := RunIntro(len, m.version, m.random, sid + (cs + (cm + rest)));
    var c2 := RunSession(c1, m.sessionId, cs + (cm + rest), m.version);
    var c3 := RunSuites(c2, m.suites, cm + rest, m.version);
    d := RunCompressions(c3, m.compressions, rest, m.version);
    StartParts(m, len, rest);
  }

  /** The length of the extension block is read and skipped. */
  lemma RunStated(c: Ctx, stated: seq<byte>, rest: seq<byte>) returns (d: Ctx)
    requires Valid(c) && c.state == Cm && c.size == 0 && 2 <= c.left && |stated| == 2
    ensures Between(d) && d.left == c.left - 2 && OutputOf(d) == OutputOf(c)
    ensures Run(c, stated + rest) == Run(d, rest)
  {
    hide Run, Turn;
    var c1 := Want(c, Ext, InBuf(0), 2);
    RunComplete(c, stated + rest, c1);
    RunField(c1, stated, rest);
    FillBuf(c1, stated);
    d := Fill(c1, stated);
  }

  lemma ContentParts(m: Message, rest: seq<byte>)
    requires MessageOk(m)
    ensures m.block == None ==>
      && PrintContent(m) == PrintStart(m)
      && PrintMessage(m) + rest == MessageHead(|PrintContent(m)|) + PrintStart(m) + rest
    ensures m.block.Some? ==>
      var (stated, items) := m.block.value;
      && |PrintContent(m)| == |PrintStart(m)| + 2 + |PrintItems(items)|
      && PrintMessage(m) + rest ==
         MessageHead(|PrintContent(m)|) + PrintStart(m) + (stated + (PrintItems(items) + rest))
  {
    hide MessageHead, PrintStart, PrintItems;
    assert m.block == None ==> PrintStart(m) + [] == PrintStart(m);
  }

  /** Every message of the grammar is accepted, whatever follows it. */
  lemma Accepted(m: Message, rest: seq<byte>)
    requires MessageOk(m)
    ensures Run(INITIAL, PrintMessage(m) + rest) == Done(Ok, Shown(m))
  {
    hide Run, OutputOf, FieldValid, PrintStart, MessageHead, PrintItems;
    ContentParts(m, rest);
    match m.block
    case None =>
      var c := RunStart(m, |PrintContent(m)|, rest);
      RunEnd(c, rest);
    case Some(block) =>
      var more := block.0 + (PrintItems(block.1) + rest);
      var c := RunStart(m, |PrintContent(m)|, more);
      var c1 := RunStated(c, block.0, PrintItems(block.1) + rest);
      var c2 := RunItems(c1, block.1, rest);
      RunEnd(c2, rest);
  }
}
