/**
 * The ClientHello parser of the ssl_preread module as a function on contexts.
 *
 * A context is what the parser keeps between two records.  `Run` consumes one record body;
 * it either needs more bytes (`Again`) or reaches a verdict (`Done`).
 */
module PrereadSpec {
  import opened Bytes
  import opened Options

  datatype State =
    | Start | Header | Version | Random | SidLen | Sid | CsLen | Cs | CmLen | Cm
    | Ext | ExtHeader | SniLen | SniHostHead | SniHost
    | AlpnLen | AlpnProtoLen | AlpnProtoData | SupverLen

  /** Where the bytes of the current field go. */
  datatype Dst = Null | InBuf(off: nat) | InVersion(off: nat) | InHost(off: nat) | InAlpn(off: nat)

  /** A pool allocation of `cap` bytes, of which `bytes` have been written, or a NULL pointer. */
  datatype Region = NoData | Data(cap: nat, bytes: seq<byte>)

  datatype Ctx = Ctx(
    state: State, size: nat, left: nat, ext: nat, dst: Dst,
    buf: seq<byte>, version: seq<byte>,
    host: Region, hostLen: nat, alpn: Region, alpnLen: nat)

  datatype Verdict = Ok | Declined

  /** What the preread variables can see of a context. */
  datatype Output = Output(version: seq<byte>, host: Option<seq<byte>>, alpn: Option<seq<byte>>)

  datatype Outcome = Again(ctx: Ctx) | Done(verdict: Verdict, output: Output)

  /** The zeroed context a session starts with. */
  const INITIAL := Ctx(Start, 0, 0, 0, Null, [0, 0, 0, 0], [0, 0], NoData, 0, NoData, 0)

  predicate InBufTo(c: Ctx, width: nat) {
    c.size <= width && c.dst == InBuf(width - c.size)
  }

  ghost predicate FieldValid(c: Ctx)
    requires |c.buf| == 4
  {
    match c.state
    case Start => c.size == 0 && c.left == 0 && c.dst == Null
    case Header => InBufTo(c, 4) && c.left == c.size
    case Version => c.size <= 2 && c.dst == InVersion(2 - c.size)
    case Random | Sid | Cs | Cm => c.dst == Null
    case SidLen | CmLen | SupverLen => InBufTo(c, 1)
    case CsLen => InBufTo(c, 2)
    case Ext => c.dst == Null || InBufTo(c, 2)
    case ExtHeader => InBufTo(c, 4)
    case SniLen => InBufTo(c, 2) && c.host.NoData?
    case SniHostHead => InBufTo(c, 3) && c.host.NoData?
    case SniHost =>
      && c.host.Data? && c.hostLen == 0
      && c.dst == InHost(|c.host.bytes|)
      && |c.host.bytes| + c.size == c.host.cap == U16(c.buf[1], c.buf[2])
    case AlpnLen => InBufTo(c, 2) && c.alpn.NoData?
    case AlpnProtoLen => InBufTo(c, 1) && c.alpn.Data? && c.alpnLen + c.ext == c.alpn.cap
    case AlpnProtoData =>
      && c.alpn.Data?
      && c.dst == InAlpn(|c.alpn.bytes|)
      && c.alpnLen <= |c.alpn.bytes|
      && |c.alpn.bytes| + c.size == c.alpnLen + c.buf[0]
      && c.alpnLen + c.buf[0] + 1 + c.ext == c.alpn.cap
  }

  /**
   * What holds at every head of the parser's loop: the pending field fits the rest of the
   * message, and its destination has room for exactly the bytes still missing.
   */
  ghost predicate Valid(c: Ctx) {
    && |c.buf| == 4 && |c.version| == 2
    && c.size <= c.left
    && FieldValid(c)
    && (if c.host.NoData? then c.hostLen == 0 else
          && |c.host.bytes| <= c.host.cap
          && (c.state == SniHost || |c.host.bytes| == c.host.cap == c.hostLen))
    && (if c.alpn.NoData? then c.alpnLen == 0 else
          && |c.alpn.bytes| <= c.alpn.cap
          && (c.state == AlpnProtoData || |c.alpn.bytes| == c.alpnLen))
  }

  // ----- one turn of the loop -----

  function Overwrite(s: seq<byte>, off: nat, bytes: seq<byte>): (r: seq<byte>)
    requires off + |bytes| <= |s|
    ensures |r| == |s|
  {
    s[..off] + bytes + s[off + |bytes|..]
  }

  /** The destination has room for the bytes still missing. */
  predicate Room(c: Ctx) {
    match c.dst
    case Null => true
    case InBuf(off) => off + c.size <= |c.buf|
    case InVersion(off) => off + c.size <= |c.version|
    case InHost(off) => c.host.Data?
    case InAlpn(off) => c.alpn.Data?
  }

  /** The copy of `bytes` to the current destination. */
  function Store(c: Ctx, bytes: seq<byte>): Ctx
    requires Room(c) && |bytes| <= c.size
  {
    match c.dst
    case Null => c
    case InBuf(off) => c.(buf := Overwrite(c.buf, off, bytes), dst := InBuf(off + |bytes|))
    case InVersion(off) => c.(version := Overwrite(c.version, off, bytes), dst := InVersion(off + |bytes|))
    case InHost(off) => c.(host := Data(c.host.cap, c.host.bytes + bytes), dst := InHost(off + |bytes|))
    case InAlpn(off) => c.(alpn := Data(c.alpn.cap, c.alpn.bytes + bytes), dst := InAlpn(off + |bytes|))
  }

  /** Consumes bytes of the current field. */
  function Fill(c: Ctx, bytes: seq<byte>): (r: Ctx)
    requires Valid(c) && |bytes| <= c.size
    ensures r.state == c.state && r.size == c.size - |bytes| && r.left == c.left - |bytes|
  {
    Store(c, bytes).(size := c.size - |bytes|, left := c.left - |bytes|)
  }

  lemma FillFieldValid(c: Ctx, bytes: seq<byte>)
    requires Valid(c) && |bytes| <= c.size
    ensures |Fill(c, bytes).buf| == 4 && FieldValid(Fill(c, bytes))
  {
    match c.dst
    case Null =>
    case InBuf(_) =>
    case InVersion(_) =>
    case InHost(_) => assert c.state.SniHost?;
    case InAlpn(_) => assert c.state.AlpnProtoData?;
  }

  lemma FillValid(c: Ctx, bytes: seq<byte>)
    requires Valid(c) && |bytes| <= c.size
    ensures Valid(Fill(c, bytes))
  {
    FillFieldValid(c, bytes);
    assert c.dst.InHost? ==> c.state.SniHost? && |c.host.bytes| + c.size == c.host.cap;
    assert c.dst.InAlpn? ==> c.state.AlpnProtoData? && |c.alpn.bytes| + c.size < c.alpn.cap + 1;
    hide FieldValid;
  }

  datatype Step = Go(ctx: Ctx) | Stop(verdict: Verdict, ctx: Ctx)

  function Want(c: Ctx, state: State, dst: Dst, size: nat): Ctx {
    c.(state := state, dst := dst, size := size)
  }

  /** The switch: what to do once the current field is complete. */
  function Advance(c: Ctx): (r: Step)
    requires Valid(c) && c.size == 0
  {
    var p := c.buf;
    match c.state
    case Start => Go(Want(c, Header, InBuf(0), 4).(left := 4))
    case Header =>
      if p[0] != 1 then Stop(Declined, c)
      else Go(Want(c, Version, InVersion(0), 2).(left := U24(p[1], p[2], p[3])))
    case Version => Go(Want(c, Random, Null, 32))
    case Random => Go(Want(c, SidLen, InBuf(0), 1))
    case SidLen => Go(Want(c, Sid, Null, p[0]))
    case Sid => Go(Want(c, CsLen, InBuf(0), 2))
    case CsLen => Go(Want(c, Cs, Null, U16(p[0], p[1])))
    case Cs => Go(Want(c, CmLen, InBuf(0), 1))
    case CmLen => Go(Want(c, Cm, Null, p[0]))
    case Cm => if c.left == 0 then Stop(Ok, c) else Go(Want(c, Ext, InBuf(0), 2))
    case Ext => if c.left == 0 then Stop(Ok, c) else Go(Want(c, ExtHeader, InBuf(0), 4))
    case ExtHeader =>
      if p[0] == 0 && p[1] == 0 && c.host.NoData? then Go(Want(c, SniLen, InBuf(0), 2))
      else if p[0] == 0 && p[1] == 16 && c.alpn.NoData? then Go(Want(c, AlpnLen, InBuf(0), 2))
      else if p[0] == 0 && p[1] == 43 then Go(Want(c, SupverLen, InBuf(0), 1))
      else Go(Want(c, Ext, Null, U16(p[2], p[3])))
    case SniLen => Go(Want(c, SniHostHead, InBuf(0), 3).(ext := U16(p[0], p[1])))
    case SniHostHead =>
      var size := U16(p[1], p[2]);
      if p[0] != 0 || c.ext < 3 + size then Stop(Declined, c)
      else Go(Want(c, SniHost, InHost(0), size).(ext := c.ext - (3 + size), host := Data(size, [])))
    case SniHost => Go(Want(c, Ext, Null, c.ext).(hostLen := U16(p[1], p[2])))
    case AlpnLen =>
      Go(Want(c, AlpnProtoLen, InBuf(0), 1).(ext := U16(p[0], p[1]), alpn := Data(U16(p[0], p[1]), [])))
    case AlpnProtoLen =>
      if p[0] == 0 || c.ext <= p[0] then Stop(Declined, c)
      else Go(Want(c, AlpnProtoData, InAlpn(c.alpnLen), p[0]).(ext := c.ext - p[0] - 1))
    case AlpnProtoData =>
      var len := c.alpnLen + p[0];
      if c.ext != 0 then
        Go(Want(c, AlpnProtoLen, InBuf(0), 1).(
             alpn := Data(c.alpn.cap, c.alpn.bytes + [',' as int]), alpnLen := len + 1))
      else
        Go(Want(c, Ext, Null, 0).(alpnLen := len))
    case SupverLen => Go(Want(c, Ext, Null, p[0]).(version := [3, 4]))
  }

  /** The string (data, len) as the variables read it. */
  function Visible(r: Region, len: nat): Option<seq<byte>> {
    if r.Data? && len <= |r.bytes| then Some(r.bytes[..len]) else None
  }

  function OutputOf(c: Ctx): Output {
    Output(c.version, Visible(c.host, c.hostLen), Visible(c.alpn, c.alpnLen))
  }

  lemma AdvanceHelloValid(c: Ctx)
    requires Valid(c) && c.size == 0
    requires c.state.Start? || c.state.Header? || c.state.Version? || c.state.Random? || c.state.SidLen? || c.state.Sid?
    ensures var r := Advance(c); r.Go? && r.ctx.size <= r.ctx.left ==> Valid(r.ctx)
  {
  }

  lemma AdvanceSuitesValid(c: Ctx)
    requires Valid(c) && c.size == 0
    requires c.state.CsLen? || c.state.Cs? || c.state.CmLen? || c.state.Cm? || c.state.Ext? || c.state.ExtHeader?
    ensures var r := Advance(c); r.Go? && r.ctx.size <= r.ctx.left ==> Valid(r.ctx)
  {
  }

  lemma AdvanceSniValid(c: Ctx)
    requires Valid(c) && c.size == 0
    requires c.state.SniLen? || c.state.SniHostHead? || c.state.SniHost?
    ensures var r := Advance(c); r.Go? && r.ctx.size <= r.ctx.left ==> Valid(r.ctx)
  {
  }

  lemma AdvanceAlpnValid(c: Ctx)
    requires Valid(c) && c.size == 0
    requires c.state.AlpnLen? || c.state.AlpnProtoLen? || c.state.AlpnProtoData? || c.state.SupverLen?
    ensures var r := Advance(c); r.Go? && r.ctx.size <= r.ctx.left ==> Valid(r.ctx)
  {
  }

  lemma AdvanceValid(c: Ctx)
    requires Valid(c) && c.size == 0
    ensures var r := Advance(c); r.Go? && r.ctx.size <= r.ctx.left ==> Valid(r.ctx)
  {
    match c.state
    case Start | Header | Version | Random | SidLen | Sid => AdvanceHelloValid(c);
    case CsLen | Cs | CmLen | Cm | Ext | ExtHeader => AdvanceSuitesValid(c);
    case SniLen | SniHostHead | SniHost => AdvanceSniValid(c);
    case _ => AdvanceAlpnValid(c);
  }

  // ----- the loop -----

  function Phase(s: State): nat {
    match s
    case Start => 2
    case Header => 1
    case _ => 0
  }

  /** Bounds how many further zero-size fields can follow one another. */
  function ZeroRank(c: Ctx): nat {
    if c.size != 0 then 0 else
      match c.state
      case SniHostHead => 3
      case SidLen | CsLen | CmLen | ExtHeader | SupverLen | AlpnProtoData | SniHost => 2
      case _ => 1
  }

  /** A turn that goes on moves to a later phase, or keeps `left` and lowers the zero-size rank. */
  lemma AdvanceDecreases(c: Ctx)
    requires Valid(c) && c.size == 0
    ensures var r := Advance(c);
      r.Go? ==>
        || Phase(r.ctx.state) < Phase(c.state)
        || (Phase(r.ctx.state) == Phase(c.state) == 0 && r.ctx.left == c.left && ZeroRank(r.ctx) < ZeroRank(c))
  {
  }

  ghost predicate Smaller(d: Ctx, c: Ctx) {
    || Phase(d.state) < Phase(c.state)
    || (Phase(d.state) == Phase(c.state) && d.left < c.left)
    || (Phase(d.state) == Phase(c.state) && d.left == c.left && ZeroRank(d) < ZeroRank(c))
  }

  lemma SmallerMeans(d: Ctx, c: Ctx)
    requires Smaller(d, c)
    ensures (Phase(c.state), c.left, ZeroRank(c) decreases to Phase(d.state), d.left, ZeroRank(d))
  {
  }

  datatype TurnResult = More(ctx: Ctx) | Next(ctx: Ctx) | Halt(verdict: Verdict, output: Output)

  /** One turn of the loop on a completed field. */
  function Switch(c: Ctx): TurnResult
    requires Valid(c) && c.size == 0
  {
    match Advance(c)
    case Stop(v, d) => Halt(v, OutputOf(d))
    case Go(d) => if d.left < d.size then Halt(Declined, OutputOf(d)) else Next(d)
  }

  /** One turn of the loop: take what there is of the current field, then switch if it is complete. */
  function Turn(c: Ctx, input: seq<byte>): TurnResult
    requires Valid(c)
  {
    var c' := Fill(c, input[..Min(|input|, c.size)]);
    FillValid(c, input[..Min(|input|, c.size)]);
    if c'.size != 0 then More(c') else Switch(c')
  }

  lemma SwitchProgress(c: Ctx)
    requires Valid(c) && c.size == 0
    ensures var r := Switch(c); r.Next? ==> Valid(r.ctx) && Smaller(r.ctx, c)
    ensures var r := Switch(c); r.Next? ==> Phase(r.ctx.state) < Phase(c.state) || r.ctx.left == c.left
  {
    AdvanceValid(c);
    AdvanceDecreases(c);
  }

  lemma TurnProgress(c: Ctx, input: seq<byte>)
    requires Valid(c)
    ensures var r := Turn(c, input); r.Next? ==> Valid(r.ctx) && Smaller(r.ctx, c)
    ensures var r := Turn(c, input); r.More? ==> Valid(r.ctx) && 0 < r.ctx.size
  {
    hide Fill, Store, Advance, FieldValid;
    var n := Min(|input|, c.size);
    var c' := Fill(c, input[..n]);
    FillValid(c, input[..n]);
    assert c'.state == c.state && c'.left == c.left - n;
    if n == c.size {
      SwitchProgress(c');
    }
  }

  function Run(c: Ctx, input: seq<byte>): (r: Outcome)
    requires Valid(c)
    ensures r.Again? ==> Valid(r.ctx) && 0 < r.ctx.size
    decreases Phase(c.state), c.left, ZeroRank(c)
  {
    TurnProgress(c, input);
    match Turn(c, input)
    case More(d) => Again(d)
    case Halt(v, out) => Done(v, out)
    case Next(d) => Run(d, input[Min(|input|, c.size)..])
  }

  lemma RunUnfolds(c: Ctx, input: seq<byte>)
    requires Valid(c)
    ensures var r := Turn(c, input);
      && (r.More? ==> Run(c, input) == Again(r.ctx))
      && (r.Halt? ==> Run(c, input) == Done(r.verdict, r.output))
      && (r.Next? ==> Valid(r.ctx) && Run(c, input) == Run(r.ctx, input[Min(|input|, c.size)..]))
  {
    TurnProgress(c, input);
  }
}
