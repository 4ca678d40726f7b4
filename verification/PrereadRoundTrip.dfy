/**
 * Printing a ClientHello and preading it back: sections 4.1.2 and 4.2.1 of RFC 8446,
 * section 3 of RFC 6066 (server_name) and section 3.1 of RFC 7301 (ALPN).
 */
module PrereadRoundTrip {
  import opened Bytes
  import opened PrereadSpec
  import opened PrereadChunks
  import opened PrereadRecords
  import opened Options

  /** `otherNames` is the encoding of the server names after the first. */
  datatype Extension =
    | ServerName(host: seq<byte>, otherNames: seq<byte>)
    | Protocols(names: seq<seq<byte>>)
    | SupportedVersions(versions: seq<byte>)
    | Other(kind: nat, body: seq<byte>)

  datatype Hello = Hello(
    version: seq<byte>, random: seq<byte>, sessionId: seq<byte>, suites: seq<byte>,
    compressions: seq<byte>, extensions: Option<seq<Extension>>)

  // ----- the printer -----

  function Block8(s: seq<byte>): (r: seq<byte>)
    requires |s| < 0x100
    ensures |r| == |s| + 1
  {
    [|s|] + s
  }

  function Block16(s: seq<byte>): (r: seq<byte>)
    requires |s| < 0x10000
    ensures |r| == |s| + 2
  {
    Put16(|s|) + s
  }

  ghost predicate NamesFormed(names: seq<seq<byte>>) {
    forall i :: 0 <= i < |names| ==> 0 < |names[i]| < 0x100
  }

  function PrintNames(names: seq<seq<byte>>): seq<byte>
    requires NamesFormed(names)
  {
    if names == [] then [] else Block8(names[0]) + PrintNames(names[1..])
  }

  /** Name type host_name and the length of the name. */
  function NameHead(length: nat): (r: seq<byte>)
    requires length < 0x10000
    ensures |r| == 3 && r[0] == 0 && U16(r[1], r[2]) == length
  {
    [0] + Put16(length)
  }

  function PrintServerNames(host: seq<byte>, otherNames: seq<byte>): (r: seq<byte>)
    requires |host| < 0x10000
    ensures |r| == 3 + |host| + |otherNames|
  {
    NameHead(|host|) + host + otherNames
  }

  ghost predicate ExtensionFormed(e: Extension) {
    match e
    case ServerName(host, otherNames) => 3 + |host| + |otherNames| < 0x10000 - 2
    case Protocols(names) => names != [] && NamesFormed(names) && |PrintNames(names)| < 0x10000 - 2
    case SupportedVersions(versions) => |versions| < 0x100
    case Other(kind, body) => kind < 0x10000 && kind !in {0, 16, 43} && |body| < 0x10000
  }

  function Kind(e: Extension): nat {
    match e
    case ServerName(_, _) => 0
    case Protocols(_) => 16
    case SupportedVersions(_) => 43
    case Other(kind, _) => kind
  }

  function PrintBody(e: Extension): (r: seq<byte>)
    requires ExtensionFormed(e)
    ensures |r| < 0x10000
  {
    match e
    case ServerName(host, otherNames) => Block16(PrintServerNames(host, otherNames))
    case Protocols(names) => Block16(PrintNames(names))
    case SupportedVersions(versions) => Block8(versions)
    case Other(_, body) => body
  }

  function PrintExtension(e: Extension): seq<byte>
    requires ExtensionFormed(e)
  {
    Put16(Kind(e)) + Block16(PrintBody(e))
  }

  ghost predicate ExtensionsFormed(es: seq<Extension>) {
    forall i :: 0 <= i < |es| ==> ExtensionFormed(es[i])
  }

  function PrintExtensions(es: seq<Extension>): seq<byte>
    requires ExtensionsFormed(es)
  {
    if es == [] then [] else PrintExtension(es[0]) + PrintExtensions(es[1..])
  }

  ghost predicate HelloFormed(h: Hello) {
    && |h.version| == 2 && |h.random| == 32 && |h.sessionId| < 0x100
    && |h.suites| < 0x10000 && |h.compressions| < 0x100
    && (h.extensions.Some? ==>
          ExtensionsFormed(h.extensions.value) && |PrintExtensions(h.extensions.value)| < 0x10000)
  }

  function PrintFixed(h: Hello): seq<byte>
    requires HelloFormed(h)
  {
    h.version + h.random + Block8(h.sessionId) + Block16(h.suites) + Block8(h.compressions)
  }

  function PrintTail(h: Hello): seq<byte>
    requires HelloFormed(h)
  {
    match h.extensions
    case None => []
    case Some(es) => Block16(PrintExtensions(es))
  }

  /** Message type 1 and the 24-bit length of the message. */
  function MessageHead(len: nat): (r: seq<byte>)
    requires len < 0x1000000
    ensures |r| == 4 && r[0] == 1 && U24(r[1], r[2], r[3]) == len
  {
    [1] + Put24(len)
  }

  /** The handshake message: type 1, a 24-bit length and the body. */
  function PrintHello(h: Hello): seq<byte>
    requires HelloFormed(h)
  {
    var body := PrintFixed(h) + PrintTail(h);
    MessageHead(|body|) + body
  }

  // ----- what preread should report -----

  function Joined(names: seq<seq<byte>>): seq<byte>
  {
    if names == [] then []
    else if |names| == 1 then names[0]
    else names[0] + [',' as int] + Joined(names[1..])
  }

  /** A comma before every name but the first. */
  lemma {:induction false} JoinedIs(names: seq<seq<byte>>, others: seq<seq<byte>>)
    requires |names| == |others| + 1
    requires forall k :: 0 <= k < |others| ==> others[k] == [0x2c] + names[k + 1]
    ensures Joined(names) == names[0] + Flatten(others)
    decreases |names|
  {
    if others != [] {
      JoinedIs(names[1..], others[1..]);
      assert names[0] + [0x2c] + Joined(names[1..]) == names[0] + (others[0] + Flatten(others[1..]));
    }
  }

  /** The effect of one extension on what has been seen so far; a repeated one is ignored. */
  function Seen(out: Output, e: Extension): Output {
    match e
    case ServerName(host, _) => if out.host.None? then out.(host := Some(host)) else out
    case Protocols(names) => if out.alpn.None? then out.(alpn := Some(Joined(names))) else out
    case SupportedVersions(_) => out.(version := [3, 4])
    case Other(_, _) => out
  }

  function SeenAll(out: Output, es: seq<Extension>): Output
    decreases |es|
  {
    if es == [] then out else SeenAll(Seen(out, es[0]), es[1..])
  }

  function Expected(h: Hello): Output {
    SeenAll(Output(h.version, None, None), if h.extensions.Some? then h.extensions.value else [])
  }

  // ----- running over a field -----

  /** A field that is complete can be taken out of the input. */
  lemma RunField(c: Ctx, field: seq<byte>, rest: seq<byte>)
    requires Valid(c) && |field| <= c.size
    ensures Valid(Fill(c, field)) && Run(c, field + rest) == Run(Fill(c, field), rest)
  {
    hide FieldValid, Fill, Advance;
    RunConcat(c, field, rest);
    FillValid(c, field);
    assert field[..|field|] == field;
    if |field| == c.size {
      var d := Fill(c, field);
      assert field[|field|..] == [];
      FillFill(c, field, []);
      FillFill(c, field, rest[..0]);
      assert field + [] == field;
      assert (field + rest)[..c.size] == field;
      assert (field + rest)[c.size..] == rest && rest[0..] == rest;
    }
  }

  /** A complete field and the switch after it. */
  lemma RunStep(c: Ctx, field: seq<byte>, rest: seq<byte>, d: Ctx)
    requires Valid(c) && |field| == c.size
    requires Advance(Fill(c, field)) == Go(d) && d.size <= d.left
    ensures Valid(d) && Run(c, field + rest) == Run(d, rest)
  {
    hide FieldValid, Fill, Advance;
    FillValid(c, field);
    AdvanceValid(Fill(c, field));
    assert (field + rest)[..c.size] == field;
    assert (field + rest)[c.size..] == rest;
    TurnProgress(c, field + rest);
  }

  lemma FillNothing(c: Ctx)
    requires Valid(c)
    ensures Fill(c, []) == c
  {
    match c.dst
    case Null =>
    case InBuf(off) => assert Overwrite(c.buf, off, []) == c.buf;
    case InVersion(off) => assert Overwrite(c.version, off, []) == c.version;
    case InHost(_) => assert c.host.bytes + [] == c.host.bytes;
    case InAlpn(_) => assert c.alpn.bytes + [] == c.alpn.bytes;
  }

  /** The switch alone, when nothing of the current field is missing. */
  lemma RunComplete(c: Ctx, input: seq<byte>, d: Ctx)
    requires Valid(c) && c.size == 0 && Advance(c) == Go(d) && d.size <= d.left
    ensures Valid(d) && Run(c, input) == Run(d, input)
  {
    hide FieldValid, Fill, Advance;
    FillNothing(c);
    RunStep(c, [], input, d);
    assert [] + input == input;
  }

  lemma FillBuf(c: Ctx, bytes: seq<byte>)
    requires Valid(c) && c.dst == InBuf(0) && |bytes| == c.size && c.state != Start
    ensures |bytes| <= 4
    ensures Fill(c, bytes) ==
            c.(buf := bytes + c.buf[|bytes|..], dst := InBuf(|bytes|), size := 0, left := c.left - |bytes|)
  {
  }

  /** A length or header field read into `buf`, and the switch after it. */
  lemma RunBuf(c: Ctx, field: seq<byte>, rest: seq<byte>, d: Ctx)
    requires Valid(c) && c.dst == InBuf(0) && |field| == c.size && c.state != Start && |field| <= 4
    requires var c' := c.(buf := field + c.buf[|field|..], dst := InBuf(|field|), size := 0, left := c.left - |field|);
      Valid(c') && Advance(c') == Go(d) && d.size <= d.left
    ensures Valid(d) && Run(c, field + rest) == Run(d, rest)
  {
    FillBuf(c, field);
    hide FieldValid, Fill, Advance;
    RunStep(c, field, rest, d);
  }

  // ----- extensions -----

  /** Between two extensions. */
  ghost predicate Between(c: Ctx) {
    Valid(c) && c.state == Ext && c.size == 0
  }

  lemma BetweenOutput(c: Ctx)
    requires Between(c)
    ensures OutputOf(c).host.None? <==> c.host.NoData?
    ensures OutputOf(c).alpn.None? <==> c.alpn.NoData?
  {
  }

  function WithHeader(c: Ctx, header: seq<byte>): Ctx
    requires c.left >= 4
  {
    c.(state := ExtHeader, buf := header, dst := InBuf(4), size := 0, left := c.left - 4)
  }

  /** The four bytes of extension type and length. */
  lemma RunHeader(c: Ctx, header: seq<byte>, rest: seq<byte>, d: Ctx)
    requires Between(c) && |header| == 4 && c.left >= 4
    requires Valid(WithHeader(c, header)) && Advance(WithHeader(c, header)) == Go(d) && d.size <= d.left
    ensures Valid(d) && Run(c, header + rest) == Run(d, rest)
  {
    var c1 := Want(c, ExtHeader, InBuf(0), 4);
    assert Valid(c1);
    RunComplete(c, header + rest, c1);
    assert header + c1.buf[4..] == header;
    hide Advance, FieldValid, Fill;
    RunBuf(c1, header, rest, d);
  }

  function HeaderOf(kind: nat, body: seq<byte>): (r: seq<byte>)
    requires kind < 0x10000 && |body| < 0x10000
    ensures |r| == 4 && U16(r[0], r[1]) == kind && U16(r[2], r[3]) == |body|
  {
    Put16(kind) + Put16(|body|)
  }

  /** Skipping the data of the current extension, all of it or what is left of it. */
  lemma RunSkip(c: Ctx, body: seq<byte>, rest: seq<byte>) returns (d: Ctx)
    requires Valid(c) && c.state == Ext && c.dst == Null && |body| == c.size
    ensures Between(d) && d.left == c.left - |body| && OutputOf(d) == OutputOf(c)
    ensures Run(c, body + rest) == Run(d, rest)
  {
    RunField(c, body, rest);
    d := Fill(c, body);
  }

  /** An extension the parser has no use for. */
  lemma RunIgnored(c: Ctx, kind: nat, body: seq<byte>, rest: seq<byte>) returns (d: Ctx)
    requires Between(c) && kind < 0x10000 && |body| < 0x10000 && 4 + |body| <= c.left
    requires kind != 43 && (kind == 0 ==> c.host.Data?) && (kind == 16 ==> c.alpn.Data?)
    ensures Between(d) && d.left == c.left - 4 - |body| && OutputOf(d) == OutputOf(c)
    ensures Run(c, HeaderOf(kind, body) + body + rest) == Run(d, rest)
  {
    hide Run, Turn, Put16;
    var header := HeaderOf(kind, body);
    var c1 := WithHeader(c, header);
    var c2 := Want(c1, Ext, Null, |body|);
    RunHeader(c, header, body + rest, c2);
    hide Advance, Fill;
    d := RunSkip(c2, body, rest);
    assert header + body + rest == header + (body + rest);
  }

  /** The header of one of the three extensions the parser looks into. */
  lemma RunInto(c: Ctx, header: seq<byte>, rest: seq<byte>) returns (d: Ctx)
    requires Between(c) && |header| == 4 && header[0] == 0
    requires 4 + (if header[1] == 43 then 1 else 2) <= c.left
    requires (header[1] == 0 && c.host.NoData?) || (header[1] == 16 && c.alpn.NoData?) || header[1] == 43
    ensures Valid(d) && d.left == c.left - 4 && d.dst == InBuf(0) && OutputOf(d) == OutputOf(c)
    ensures d.host == c.host && d.alpn == c.alpn
    ensures header[1] == 0 ==> d.state == SniLen && d.size == 2
    ensures header[1] == 16 ==> d.state == AlpnLen && d.size == 2
    ensures header[1] == 43 ==> d.state == SupverLen && d.size == 1
    ensures Run(c, header + rest) == Run(d, rest)
  {
    var c1 := WithHeader(c, header);
    d := Want(c1, if header[1] == 0 then SniLen else if header[1] == 16 then AlpnLen else SupverLen, InBuf(0),
              if header[1] == 43 then 1 else 2);
    RunHeader(c, header, rest, d);
  }

  lemma RunVersions(c: Ctx, versions: seq<byte>, rest: seq<byte>) returns (d: Ctx)
    requires Valid(c) && c.state == SupverLen && c.size == 1 && c.dst == InBuf(0)
    requires |versions| < 0x100 && 1 + |versions| <= c.left
    ensures Between(d) && d.left == c.left - 1 - |versions| && OutputOf(d) == OutputOf(c).(version := [3, 4])
    ensures Run(c, Block8(versions) + rest) == Run(d, rest)
  {
    hide Run, Turn, Put16;
    var c1 := Want(c, Ext, Null, |versions|).(version := [3, 4], buf := [|versions|] + c.buf[1..], left := c.left - 1);
    RunBuf(c, [|versions|], versions + rest, c1);
    assert Block8(versions) + rest == [|versions|] + (versions + rest);
    hide Advance, Fill;
    d := RunSkip(c1, versions, rest);
  }

  /** The host name itself, from the state in which its length is known. */
  lemma RunHost(c: Ctx, host: seq<byte>, otherNames: seq<byte>, rest: seq<byte>) returns (d: Ctx)
    requires Valid(c) && c.state == SniHost && c.size == |host| && c.dst == InHost(0)
    requires c.ext == |otherNames| && c.left >= |host| + |otherNames|
    ensures Between(d) && d.left == c.left - |host| - |otherNames|
    ensures OutputOf(d) == OutputOf(c).(host := Some(host))
    ensures Run(c, host + otherNames + rest) == Run(d, rest)
  {
    hide Run, Turn, Put16, U16;
    assert c.host.bytes == [];
    assert [] + host == host;
    var c1 := Fill(c, host);
    assert c1.host.bytes == host;
    var c2 := Want(c1, Ext, Null, |otherNames|).(hostLen := |host|);
    RunStep(c, host, otherNames + rest, c2);
    assert host + otherNames + rest == host + (otherNames + rest);
    assert host[..|host|] == host;
    hide Advance, Fill;
    d := RunSkip(c2, otherNames, rest);
  }

  lemma HostHeadOutput(c: Ctx, d: Ctx)
    requires Valid(c) && c.host.NoData? && d.host.Data? && d.hostLen == 0
    requires d.version == c.version && d.alpn == c.alpn && d.alpnLen == c.alpnLen
    ensures OutputOf(d).(host := None) == OutputOf(c)
  {
  }

  lemma ServerNamesPrinted(host: seq<byte>, otherNames: seq<byte>, rest: seq<byte>)
    requires |host| < 0x10000
    ensures PrintServerNames(host, otherNames) + rest == NameHead(|host|) + (host + otherNames + rest)
  {
    hide NameHead;
    assert NameHead(|host|) + host + otherNames + rest == NameHead(|host|) + (host + otherNames + rest);
  }

  /** The name type and the length of the host name. */
  lemma RunHostHead(c: Ctx, host: seq<byte>, otherNames: seq<byte>, rest: seq<byte>) returns (d: Ctx)
    requires Valid(c) && c.state == SniHostHead && c.size == 3 && c.dst == InBuf(0)
    requires c.ext == 3 + |host| + |otherNames| < 0x10000 && c.ext <= c.left
    ensures Between(d) && d.left == c.left - 3 - |host| - |otherNames|
    ensures OutputOf(d) == OutputOf(c).(host := Some(host))
    ensures Run(c, PrintServerNames(host, otherNames) + rest) == Run(d, rest)
  {
    hide Run, Turn, NameHead, U16, Fill, PrintServerNames, OutputOf;
    var head := NameHead(|host|);
    var c1 := Want(c, SniHost, InHost(0), |host|).(
      ext := |otherNames|, host := Data(|host|, []), buf := head + c.buf[3..], left := c.left - 3);
    HostHeadOutput(c, c1);
    RunBuf(c, head, host + otherNames + rest, c1);
    ServerNamesPrinted(host, otherNames, rest);
    hide *;
    d := RunHost(c1, host, otherNames, rest);
  }

  lemma RunServerNames(c: Ctx, host: seq<byte>, otherNames: seq<byte>, rest: seq<byte>) returns (d: Ctx)
    requires Valid(c) && c.state == SniLen && c.size == 2 && c.dst == InBuf(0)
    requires 3 + |host| + |otherNames| < 0x10000 && 5 + |host| + |otherNames| <= c.left
    ensures Between(d) && d.left == c.left - 5 - |host| - |otherNames|
    ensures OutputOf(d) == OutputOf(c).(host := Some(host))
    ensures Run(c, Block16(PrintServerNames(host, otherNames)) + rest) == Run(d, rest)
  {
    hide Run, Turn, Put16, U16;
    var list := PrintServerNames(host, otherNames);
    var len := Put16(|list|);
    var c1 := Want(c, SniHostHead, InBuf(0), 3).(ext := |list|, buf := len + c.buf[2..], left := c.left - 2);
    RunBuf(c, len, list + rest, c1);
    assert Block16(list) + rest == len + (list + rest);
    hide Advance, Fill;
    d := RunHostHead(c1, host, otherNames, rest);
  }

  /** One protocol name: its length byte and its bytes. */
  lemma RunName(c: Ctx, name: seq<byte>, rest: seq<byte>) returns (d: Ctx)
    requires Valid(c) && c.state == AlpnProtoLen && c.size == 1 && c.dst == InBuf(0)
    requires 0 < |name| < 0x100 && 1 + |name| <= c.ext && 1 + |name| <= c.left
    ensures Valid(d)
    ensures d == c.(state := AlpnProtoData, size := 0, left := c.left - 1 - |name|, ext := c.ext - 1 - |name|,
                    dst := InAlpn(c.alpnLen + |name|), buf := [|name|] + c.buf[1..],
                    alpn := Data(c.alpn.cap, c.alpn.bytes + name))
    ensures Run(c, Block8(name) + rest) == Run(d, rest)
  {
    hide Run, Turn, Put16, U16;
    var c1 := Want(c, AlpnProtoData, InAlpn(c.alpnLen), |name|).(
      ext := c.ext - 1 - |name|, buf := [|name|] + c.buf[1..], left := c.left - 1);
    RunBuf(c, [|name|], name + rest, c1);
    assert Block8(name) + rest == [|name|] + (name + rest);
    RunField(c1, name, rest);
    d := Fill(c1, name);
  }

  lemma RunLastName(c: Ctx, name: seq<byte>, rest: seq<byte>) returns (d: Ctx)
    requires Valid(c) && c.state == AlpnProtoLen && c.size == 1 && c.dst == InBuf(0)
    requires 0 < |name| < 0x100 && 1 + |name| == c.ext && c.ext <= c.left
    ensures Between(d) && d.left == c.left - 1 - |name|
    ensures OutputOf(d) == OutputOf(c).(alpn := Some(c.alpn.bytes + name))
    ensures Run(c, Block8(name) + rest) == Run(d, rest)
  {
    hide Run, Turn, Put16, U16, Fill;
    var c1 := RunName(c, name, rest);
    d := Want(c1, Ext, Null, 0).(alpnLen := c.alpnLen + |name|);
    RunComplete(c1, rest, d);
    assert d.alpn.bytes[..d.alpnLen] == d.alpn.bytes;
  }

  lemma RunMiddleName(c: Ctx, name: seq<byte>, rest: seq<byte>) returns (d: Ctx)
    requires Valid(c) && c.state == AlpnProtoLen && c.size == 1 && c.dst == InBuf(0)
    requires 0 < |name| < 0x100 && 1 + |name| < c.ext && 2 + |name| <= c.left
    ensures Valid(d) && d.state == AlpnProtoLen && d.size == 1 && d.dst == InBuf(0)
    ensures d.ext == c.ext - 1 - |name| && d.left == c.left - 1 - |name|
    ensures c.alpn.Data? && d.alpn.Data? && d.alpn.bytes == c.alpn.bytes + name + [',' as int]
    ensures OutputOf(d).(alpn := None) == OutputOf(c).(alpn := None)
    ensures Run(c, Block8(name) + rest) == Run(d, rest)
  {
    hide Run, Turn, Put16, U16, Fill;
    var c1 := RunName(c, name, rest);
    d := Want(c1, AlpnProtoLen, InBuf(0), 1).(
      alpn := Data(c.alpn.cap, c.alpn.bytes + name + [',' as int]), alpnLen := c.alpnLen + |name| + 1);
    RunComplete(c1, rest, d);
  }

  lemma NamesPrinted(names: seq<seq<byte>>, rest: seq<byte>)
    requires names != [] && NamesFormed(names)
    ensures var more := PrintNames(names[1..]);
      && |PrintNames(names)| == 1 + |names[0]| + |more| && 0 < |names[0]| < 0x100
      && PrintNames(names) + rest == Block8(names[0]) + (more + rest)
      && (|names| == 1 <==> |more| == 0) && (|names| == 1 ==> more + rest == rest)
  {
    hide Block8;
    var more := PrintNames(names[1..]);
    Assoc(Block8(names[0]), more, rest);
    if |names| == 1 {
      assert more == [] && more + rest == rest;
    } else {
      assert names[1..][0] == names[1];
    }
  }

  lemma NamesJoined(before: seq<byte>, names: seq<seq<byte>>)
    requires names != []
    ensures |names| == 1 ==> Joined(names) == names[0]
    ensures |names| > 1 ==>
      before + Joined(names) == before + names[0] + [',' as int] + Joined(names[1..])
  {
    if |names| > 1 {
      assert before + names[0] + [',' as int] + Joined(names[1..])
          == before + (names[0] + [',' as int] + Joined(names[1..]));
    }
  }

  /** The protocol names of an ALPN list, from the length byte of the first on. */
  lemma {:induction false} RunNames(c: Ctx, names: seq<seq<byte>>, rest: seq<byte>) returns (d: Ctx)
    requires Valid(c) && c.state == AlpnProtoLen && c.size == 1 && c.dst == InBuf(0)
    requires names != [] && NamesFormed(names) && c.ext == |PrintNames(names)| <= c.left
    ensures Between(d) && d.left == c.left - |PrintNames(names)|
    ensures c.alpn.Data?
    ensures OutputOf(d) == OutputOf(c).(alpn := Some(c.alpn.bytes + Joined(names)))
    ensures Run(c, PrintNames(names) + rest) == Run(d, rest)
    decreases |names|
  {
    assert c.alpn.Data? && (|names| > 1 ==> NamesFormed(names[1..]));
    hide *;
    var name, more := names[0], PrintNames(names[1..]);
    NamesPrinted(names, rest);
    NamesJoined(c.alpn.bytes, names);
    if |names| == 1 {
      d := RunLastName(c, name, more + rest);
    } else {
      var c1 := RunMiddleName(c, name, more + rest);
      d := RunNames(c1, names[1..], rest);
    }
  }

  lemma RunProtocols(c: Ctx, names: seq<seq<byte>>, rest: seq<byte>) returns (d: Ctx)
    requires Valid(c) && c.state == AlpnLen && c.size == 2 && c.dst == InBuf(0)
    requires names != [] && NamesFormed(names) && |PrintNames(names)| < 0x10000
    requires 2 + |PrintNames(names)| <= c.left
    ensures Between(d) && d.left == c.left - 2 - |PrintNames(names)|
    ensures OutputOf(d) == OutputOf(c).(alpn := Some(Joined(names)))
    ensures Run(c, Block16(PrintNames(names)) + rest) == Run(d, rest)
  {
    hide Run, Turn, Put16, U16;
    var list := PrintNames(names);
    var len := Put16(|list|);
    var c1 := Want(c, AlpnProtoLen, InBuf(0), 1).(
      ext := |list|, alpn := Data(|list|, []), buf := len + c.buf[2..], left := c.left - 2);
    RunBuf(c, len, list + rest, c1);
    assert Block16(list) + rest == len + (list + rest);
    hide Advance, Fill;
    d := RunNames(c1, names, rest);
    assert [] + Joined(names) == Joined(names);
  }

  lemma KindAt(kind: nat, body: seq<byte>)
    requires kind < 0x100 && |body| < 0x10000
    ensures HeaderOf(kind, body)[0] == 0 && HeaderOf(kind, body)[1] == kind
  {
  }

  /** One extension, new, repeated or unknown. */
  lemma RunExtension(c: Ctx, e: Extension, rest: seq<byte>) returns (d: Ctx)
    requires Between(c) && ExtensionFormed(e) && 4 + |PrintBody(e)| <= c.left
    ensures Between(d) && d.left == c.left - 4 - |PrintBody(e)| && OutputOf(d) == Seen(OutputOf(c), e)
    ensures Run(c, HeaderOf(Kind(e), PrintBody(e)) + PrintBody(e) + rest) == Run(d, rest)
  {
    hide Run, Turn, Put16, Fill, Advance, Valid, OutputOf, Block8, Block16, HeaderOf, U16;
    BetweenOutput(c);
    var kind, body := Kind(e), PrintBody(e);
    var header := HeaderOf(kind, body);
    assert header + body + rest == header + (body + rest);
    if kind < 0x100 { KindAt(kind, body); }
    if e.ServerName? && c.host.NoData? {
      var c1 := RunInto(c, header, body + rest);
      d := RunServerNames(c1, e.host, e.otherNames, rest);
    } else if e.Protocols? && c.alpn.NoData? {
      var c1 := RunInto(c, header, body + rest);
      d := RunProtocols(c1, e.names, rest);
    } else if e.SupportedVersions? {
      var c1 := RunInto(c, header, body + rest);
      d := RunVersions(c1, e.versions, rest);
    } else {
      d := RunIgnored(c, kind, body, rest);
    }
  }

  /** At the end of the message, after the last extension or where there are none. */
  lemma RunEnd(c: Ctx, rest: seq<byte>)
    requires Valid(c) && c.state in {Cm, Ext} && c.size == 0 && c.left == 0
    ensures Run(c, rest) == Done(Ok, OutputOf(c))
  {
    FillNothing(c);
    assert Turn(c, rest) == Halt(Ok, OutputOf(c));
  }

  lemma ExtensionParts(e: Extension, rest: seq<byte>)
    requires ExtensionFormed(e)
    ensures |PrintExtension(e)| == 4 + |PrintBody(e)|
    ensures PrintExtension(e) + rest == HeaderOf(Kind(e), PrintBody(e)) + PrintBody(e) + rest
  {
    hide Put16, PrintBody, ExtensionFormed;
  }

  /** All extensions up to the end of the message. */
  lemma {:induction false} RunExtensions(c: Ctx, es: seq<Extension>, rest: seq<byte>)
    requires Between(c) && ExtensionsFormed(es) && c.left == |PrintExtensions(es)|
    ensures Run(c, PrintExtensions(es) + rest) == Done(Ok, SeenAll(OutputOf(c), es))
    decreases |es|
  {
    hide Run, Turn, Valid, OutputOf, Seen, PrintExtension, PrintBody, HeaderOf, ExtensionFormed;
    if es == [] {
      RunEnd(c, rest);
      assert PrintExtensions(es) + rest == rest;
    } else {
      var more := PrintExtensions(es[1..]);
      assert PrintExtensions(es) + rest == PrintExtension(es[0]) + (more + rest);
      ExtensionParts(es[0], more + rest);
      var d := RunExtension(c, es[0], more + rest);
      RunExtensions(d, es[1..], rest);
    }
  }

  // ----- the part before the extensions -----

  /** Waiting for a length field of `size` bytes, with nothing but the version seen. */
  ghost predicate Awaits(c: Ctx, state: State, size: nat, version: seq<byte>) {
    && Valid(c) && c.state == state && c.size == size && c.dst == InBuf(0)
    && c.version == version && c.host.NoData? && c.alpn.NoData?
  }

  lemma RunMessageHead(len: nat, rest: seq<byte>) returns (d: Ctx)
    requires 35 <= len < 0x1000000
    ensures d == INITIAL.(state := State.Version, size := 2, left := len, dst := InVersion(0), buf := MessageHead(len))
    ensures Valid(d) && Run(INITIAL, MessageHead(len) + rest) == Run(d, rest)
  {
    hide Run, Turn, MessageHead, U24;
    var head := MessageHead(len);
    var c := Want(INITIAL, Header, InBuf(0), 4).(left := 4);
    RunComplete(INITIAL, head + rest, c);
    d := Want(c, State.Version, InVersion(0), 2).(left := len, buf := head);
    assert head + c.buf[4..] == head;
    RunBuf(c, head, rest, d);
  }

  /** Message type, length, client_version and random. */
  lemma RunIntro(len: nat, version: seq<byte>, random: seq<byte>, rest: seq<byte>) returns (d: Ctx)
    requires |version| == 2 && |random| == 32 && 35 <= len < 0x1000000
    ensures Awaits(d, SidLen, 1, version) && d.left == len - 34
    ensures Run(INITIAL, MessageHead(len) + version + random + rest) == Run(d, rest)
  {
    hide Run, Turn, MessageHead;
    var c1 := RunMessageHead(len, version + (random + rest));
    var c2 := Want(c1, Random, Null, 32).(left := len - 2, version := version);
    RunStep(c1, version, random + rest, c2);
    d := Want(c2, SidLen, InBuf(0), 1).(left := len - 34);
    RunStep(c2, random, rest, d);
    assert MessageHead(len) + version + random + rest == MessageHead(len) + (version + (random + rest));
  }

  lemma RunSession(c: Ctx, s: seq<byte>, rest: seq<byte>, version: seq<byte>) returns (d: Ctx)
    requires Awaits(c, SidLen, 1, version) && |s| < 0x100 && |s| + 3 <= c.left
    ensures Awaits(d, CsLen, 2, version) && d.left == c.left - 1 - |s|
    ensures Run(c, Block8(s) + rest) == Run(d, rest)
  {
    hide Run, Turn;
    var c1 := Want(c, Sid, Null, |s|).(left := c.left - 1, buf := [|s|] + c.buf[1..]);
    RunBuf(c, [|s|], s + rest, c1);
    d := Want(c1, CsLen, InBuf(0), 2).(left := c1.left - |s|);
    RunStep(c1, s, rest, d);
    assert Block8(s) + rest == [|s|] + (s + rest);
  }

  lemma RunSuites(c: Ctx, s: seq<byte>, rest: seq<byte>, version: seq<byte>) returns (d: Ctx)
    requires Awaits(c, CsLen, 2, version) && |s| < 0x10000 && |s| + 3 <= c.left
    ensures Awaits(d, CmLen, 1, version) && d.left == c.left - 2 - |s|
    ensures Run(c, Block16(s) + rest) == Run(d, rest)
  {
    hide Run, Turn, Put16, U16;
    var c1 := Want(c, Cs, Null, |s|).(left := c.left - 2, buf := Put16(|s|) + c.buf[2..]);
    RunBuf(c, Put16(|s|), s + rest, c1);
    d := Want(c1, CmLen, InBuf(0), 1).(left := c1.left - |s|);
    RunStep(c1, s, rest, d);
    assert Block16(s) + rest == Put16(|s|) + (s + rest);
  }

  lemma RunCompressions(c: Ctx, s: seq<byte>, rest: seq<byte>, version: seq<byte>) returns (d: Ctx)
    requires Awaits(c, CmLen, 1, version) && |s| < 0x100 && |s| + 1 <= c.left
    ensures Valid(d) && d.state == Cm && d.size == 0 && d.left == c.left - 1 - |s|
    ensures OutputOf(d) == Output(version, None, None)
    ensures Run(c, Block8(s) + rest) == Run(d, rest)
  {
    hide Run, Turn;
    var c1 := Want(c, Cm, Null, |s|).(left := c.left - 1, buf := [|s|] + c.buf[1..]);
    RunBuf(c, [|s|], s + rest, c1);
    RunField(c1, s, rest);
    d := Fill(c1, s);
    assert Block8(s) + rest == [|s|] + (s + rest);
  }

  /** The extension block, with the length before it. */
  lemma RunBlock(c: Ctx, es: seq<Extension>, rest: seq<byte>)
    requires Valid(c) && c.state == Cm && c.size == 0 && ExtensionsFormed(es)
    requires |PrintExtensions(es)| == c.left - 2 < 0x10000
    ensures Run(c, Block16(PrintExtensions(es)) + rest) == Done(Ok, SeenAll(OutputOf(c), es))
  {
    hide Run, Turn, Put16;
    var block := PrintExtensions(es);
    var len := Put16(|block|);
    var c1 := Want(c, Ext, InBuf(0), 2);
    RunComplete(c, len + (block + rest), c1);
    RunField(c1, len, block + rest);
    FillBuf(c1, len);
    RunExtensions(Fill(c1, len), es, rest);
    assert Block16(block) + rest == len + (block + rest);
  }

  lemma Grouped(head: seq<byte>, version: seq<byte>, random: seq<byte>, sid: seq<byte>, cs: seq<byte>, cm: seq<byte>,
                tail: seq<byte>, rest: seq<byte>)
    ensures head + (version + random + sid + cs + cm + tail) + rest ==
            head + version + random + (sid + (cs + (cm + (tail + rest))))
  {
  }

  /** The parser reads back what the printer wrote, and ignores whatever follows the message. */
  lemma RunHello(h: Hello, rest: seq<byte>)
    requires HelloFormed(h)
    ensures Run(INITIAL, PrintHello(h) + rest) == Done(Ok, Expected(h))
  {
    hide Run, MessageHead, Block8, Block16, PrintExtensions, OutputOf, FieldValid;
    var tail := PrintTail(h) + rest;
    var sid, cs, cm := Block8(h.sessionId), Block16(h.suites), Block8(h.compressions);
    var len := |PrintFixed(h) + PrintTail(h)|;
    assert |sid| == 1 + |h.sessionId| && |cs| == 2 + |h.suites| && |cm| == 1 + |h.compressions|;
    var c1 := RunIntro(len, h.version, h.random, sid + (cs + (cm + tail)));
    var c2 := RunSession(c1, h.sessionId, cs + (cm + tail), h.version);
    var c3 := RunSuites(c2, h.suites, cm + tail, h.version);
    var c4 := RunCompressions(c3, h.compressions, tail, h.version);
    Grouped(MessageHead(len), h.version, h.random, sid, cs, cm, PrintTail(h), rest);
    match h.extensions
    case None =>
      assert tail == rest;
      RunEnd(c4, rest);
    case Some(es) => RunBlock(c4, es, rest);
  }

  /**
   * Preread reports the ClientHello, however it is cut into records, however those are delivered
   * and whatever follows, provided the records fit the preread buffer.
   */
  lemma PrereadRoundTrip(
      h: Hello, after: seq<byte>, records: seq<Record>, post: seq<byte>, cap: nat, sizes: seq<nat>,
      over: bool)
    requires HelloFormed(h) && Printable(records)
    requires records != [] && Flatten(Fragments(records)) == PrintHello(h) + after
    requires |PrintAll(records)| <= cap
    requires Min(|PrintAll(records) + post|, cap) <= Total(sizes)
    ensures Deliver(INITIAL, 0, [], cap, PrintAll(records) + post, sizes, over) == Passed(Ok, Some(Expected(h)))
  {
    hide Run, Scan, Print, Expected;
    var wire := PrintAll(records);
    var window := Window([], wire + post, cap, Total(sizes));
    var more := window[|wire|..];
    assert window == [] + wire + more;
    RunHello(h, after);
    assert |Fragments(records)| > 0;
    FeedIsRun(INITIAL, Fragments(records));
    ScanRecords(INITIAL, [], records, more);
    DeliverIsReport(INITIAL, 0, [], cap, wire + post, sizes, over);
  }
}
