/**
 * The ssl_preread context as the object the session keeps, updated in place by the record
 * parser and the handler.  The host and ALPN strings are pool allocations of unknown content;
 * what has been written of them follows from the pending field.
 */
module Preread {
  import opened Bytes
  import opened PrereadSpec
  import opened PrereadRecords
  import opened Options

  /** A copy into a field, in terms of its content. */
  method Blit(a: array<byte>, off: nat, bytes: seq<byte>)
    requires off + |bytes| <= a.Length
    modifies a
    ensures a[..] == Overwrite(old(a[..]), off, bytes)
    ensures a[..off + |bytes|] == old(a[..off]) + bytes
  {
    MemCopy(a, off, bytes);
  }

  lemma MinFits(n: nat, a: nat, b: nat)
    requires n == Min(a, b)
    ensures n <= a && n <= b
  {
  }

  lemma ValidDst(c: Ctx)
    requires Valid(c)
    ensures Room(c)
    ensures c.dst.InHost? ==>
      c.state == SniHost && c.dst.off == |c.host.bytes| && c.dst.off + c.size == c.host.cap
    ensures c.dst.InAlpn? ==>
      c.state == AlpnProtoData && c.dst.off == |c.alpn.bytes| && c.dst.off + c.size < c.alpn.cap + 1
  {
  }

  class Context {
    var state: State
    var left: nat
    var size: nat
    var ext: nat
    var pos: nat
    var dst: Dst
    const buf: array<byte>
    const version: array<byte>
    var host: array?<byte>
    var hostLen: nat
    var alpn: array?<byte>
    var alpnLen: nat

    /** The arrays are separate pieces of memory. */
    ghost predicate Separate()
      reads `host, `alpn
    {
      && buf.Length == 4 && version.Length == 2 && buf != version
      && host != buf && host != version && alpn != buf && alpn != version
      && (host != null ==> host != alpn)
    }

    ghost function HostRegion(state: State, dst: Dst): Region
      reads `host, host
    {
      if host == null then NoData
      else Data(host.Length,
                if state == SniHost && dst.InHost? && dst.off <= host.Length then host[..dst.off] else host[..])
    }

    ghost function AlpnRegion(state: State, dst: Dst): Region
      reads `alpn, `alpnLen, alpn
    {
      if alpn == null then NoData
      else Data(alpn.Length,
                if state == AlpnProtoData && dst.InAlpn? && dst.off <= alpn.Length then alpn[..dst.off]
                else if alpnLen <= alpn.Length then alpn[..alpnLen] else alpn[..])
    }

    /** The context when the parser's local variables hold the given values. */
    ghost function Snapshot(state: State, size: nat, left: nat, ext: nat, dst: Dst): Ctx
      reads `host, `hostLen, `alpn, `alpnLen, buf, version, host, alpn
    {
      Ctx(state, size, left, ext, dst, buf[..], version[..],
          HostRegion(state, dst), hostLen, AlpnRegion(state, dst), alpnLen)
    }

    ghost function View(): Ctx
      reads this, buf, version, host, alpn
    {
      Snapshot(state, size, left, ext, dst)
    }

    /** What the variables read: the two version bytes and the strings (host, hostLen), (alpn, alpnLen). */
    function Exposed(): Output
      reads `host, `hostLen, `alpn, `alpnLen, version, host, alpn
    {
      Output(version[..],
             if host != null && hostLen <= host.Length then Some(host[..hostLen]) else None,
             if alpn != null && alpnLen <= alpn.Length then Some(alpn[..alpnLen]) else None)
    }

    constructor ()
      ensures Separate() && View() == INITIAL && pos == 0
      ensures fresh(buf) && fresh(version) && host == null && alpn == null
    {
      state, left, size, ext, pos, dst := Start, 0, 0, 0, 0, Null;
      buf, version := new byte[4](_ => 0), new byte[2](_ => 0);
      host, hostLen, alpn, alpnLen := null, 0, null, 0;
      new;
      assert buf[..] == [0, 0, 0, 0];
      assert version[..] == [0, 0];
    }

    method CopyToBuf(ghost c: Ctx, off: nat, bytes: seq<byte>) returns (after: Dst)
      requires Separate() && Valid(c) && |bytes| <= c.size && c.dst == InBuf(off)
      requires c == Snapshot(c.state, c.size, c.left, c.ext, c.dst)
      modifies buf
      ensures Snapshot(c.state, c.size - |bytes|, c.left - |bytes|, c.ext, after) == Fill(c, bytes)
    {
      ValidDst(c);
      hide Valid, FieldValid, Room, Overwrite;
      Blit(buf, off, bytes);
      after := InBuf(off + |bytes|);
      assert HostRegion(c.state, after) == c.host && AlpnRegion(c.state, after) == c.alpn;
    }

    method CopyToVersion(ghost c: Ctx, off: nat, bytes: seq<byte>) returns (after: Dst)
      requires Separate() && Valid(c) && |bytes| <= c.size && c.dst == InVersion(off)
      requires c == Snapshot(c.state, c.size, c.left, c.ext, c.dst)
      modifies version
      ensures Snapshot(c.state, c.size - |bytes|, c.left - |bytes|, c.ext, after) == Fill(c, bytes)
    {
      ValidDst(c);
      hide Valid, FieldValid, Room, Overwrite;
      Blit(version, off, bytes);
      after := InVersion(off + |bytes|);
    }

    method CopyToHost(ghost c: Ctx, off: nat, bytes: seq<byte>) returns (after: Dst)
      requires Separate() && Valid(c) && |bytes| <= c.size && c.dst == InHost(off)
      requires c == Snapshot(c.state, c.size, c.left, c.ext, c.dst)
      modifies host
      ensures Snapshot(c.state, c.size - |bytes|, c.left - |bytes|, c.ext, after) == Fill(c, bytes)
    {
      ValidDst(c);
      hide Valid, FieldValid, Room, Overwrite;
      Blit(host, off, bytes);
      after := InHost(off + |bytes|);
    }

    method CopyToAlpn(ghost c: Ctx, off: nat, bytes: seq<byte>) returns (after: Dst)
      requires Separate() && Valid(c) && |bytes| <= c.size && c.dst == InAlpn(off)
      requires c == Snapshot(c.state, c.size, c.left, c.ext, c.dst)
      modifies alpn
      ensures Snapshot(c.state, c.size - |bytes|, c.left - |bytes|, c.ext, after) == Fill(c, bytes)
    {
      ValidDst(c);
      hide Valid, FieldValid, Room, Overwrite;
      Blit(alpn, off, bytes);
      after := InAlpn(off + |bytes|);
    }

    /** Copies bytes of the input to the current destination, which has room for them. */
    method Copy(ghost c: Ctx, dst: Dst, bytes: seq<byte>) returns (after: Dst)
      requires Separate() && Valid(c) && |bytes| <= c.size && c.dst == dst
      requires c == Snapshot(c.state, c.size, c.left, c.ext, dst)
      modifies buf, version, host, alpn
      ensures Snapshot(c.state, c.size - |bytes|, c.left - |bytes|, c.ext, after) == Fill(c, bytes)
    {
      hide FieldValid;
      match dst
      case Null => after := dst;
      case InBuf(off) => after := CopyToBuf(c, off, bytes);
      case InVersion(off) => after := CopyToVersion(c, off, bytes);
      case InHost(off) => after := CopyToHost(c, off, bytes);
      case InAlpn(off) => after := CopyToAlpn(c, off, bytes);
    }

    method SwitchHello(ghost c: Ctx, state: State, size: nat, left: nat, ext: nat, dst: Dst)
      returns (verdict: Option<Verdict>, state': State, size': nat, left': nat, ext': nat, dst': Dst)
      requires Separate() && c == Snapshot(state, size, left, ext, dst) && Valid(c) && size == 0
      requires state in {Start, Header, State.Version, Random, SidLen, Sid, CsLen, Cs, CmLen}
      modifies version, `host, `hostLen, `alpn, `alpnLen, alpn
      ensures Separate() && (host == old(host) || fresh(host)) && (alpn == old(alpn) || fresh(alpn))
      ensures match Advance(c)
        case Stop(v, d) =>
          verdict == Some(v) && d == c && Snapshot(c.state, c.size, c.left, c.ext, c.dst) == c
        case Go(d) => verdict == None && Snapshot(state', size', left', ext', dst') == d
    {
      verdict, state', size', left', ext', dst' := None, state, size, left, ext, dst;
      match state
      case Start => state', dst', size', left' := Header, InBuf(0), 4, 4;
      case Header =>
        if buf[0] != 1 { return Some(Declined), state, size, left, ext, dst; }
        state', dst', size', left' := State.Version, InVersion(0), 2, U24(buf[1], buf[2], buf[3]);
      case Version => state', dst', size' := Random, Null, 32;
      case Random => state', dst', size' := SidLen, InBuf(0), 1;
      case SidLen => state', dst', size' := Sid, Null, buf[0];
      case Sid => state', dst', size' := CsLen, InBuf(0), 2;
      case CsLen => state', dst', size' := Cs, Null, U16(buf[0], buf[1]);
      case Cs => state', dst', size' := CmLen, InBuf(0), 1;
      case CmLen => state', dst', size' := Cm, Null, buf[0];
    }

    method SwitchExtensions(ghost c: Ctx, state: State, size: nat, left: nat, ext: nat, dst: Dst)
      returns (verdict: Option<Verdict>, state': State, size': nat, left': nat, ext': nat, dst': Dst)
      requires Separate() && c == Snapshot(state, size, left, ext, dst) && Valid(c) && size == 0
      requires state in {Cm, Ext, ExtHeader, SupverLen}
      modifies version, `host, `hostLen, `alpn, `alpnLen, alpn
      ensures Separate() && (host == old(host) || fresh(host)) && (alpn == old(alpn) || fresh(alpn))
      ensures match Advance(c)
        case Stop(v, d) =>
          verdict == Some(v) && d == c && Snapshot(c.state, c.size, c.left, c.ext, c.dst) == c
        case Go(d) => verdict == None && Snapshot(state', size', left', ext', dst') == d
    {
      verdict, state', size', left', ext', dst' := None, state, size, left, ext, dst;
      match state
      case Cm =>
        if left == 0 { return Some(Ok), state, size, left, ext, dst; }
        state', dst', size' := Ext, InBuf(0), 2;
      case Ext =>
        if left == 0 { return Some(Ok), state, size, left, ext, dst; }
        state', dst', size' := ExtHeader, InBuf(0), 4;
      case ExtHeader =>
        if buf[0] == 0 && buf[1] == 0 && host == null {
          state', dst', size' := SniLen, InBuf(0), 2;
        } else if buf[0] == 0 && buf[1] == 16 && alpn == null {
          state', dst', size' := AlpnLen, InBuf(0), 2;
        } else if buf[0] == 0 && buf[1] == 43 {
          state', dst', size' := SupverLen, InBuf(0), 1;
        } else {
          state', dst', size' := Ext, Null, U16(buf[2], buf[3]);
        }
      case SupverLen =>
        version[0], version[1] := 3, 4;
        state', dst', size' := Ext, Null, buf[0];
        assert version[..] == [3, 4];
    }

    method SwitchSni(ghost c: Ctx, state: State, size: nat, left: nat, ext: nat, dst: Dst)
      returns (verdict: Option<Verdict>, state': State, size': nat, left': nat, ext': nat, dst': Dst)
      requires Separate() && c == Snapshot(state, size, left, ext, dst) && Valid(c) && size == 0
      requires state in {SniLen, SniHostHead, SniHost}
      modifies version, `host, `hostLen, `alpn, `alpnLen, alpn
      ensures Separate() && (host == old(host) || fresh(host)) && (alpn == old(alpn) || fresh(alpn))
      ensures match Advance(c)
        case Stop(v, d) =>
          verdict == Some(v) && d == c && Snapshot(c.state, c.size, c.left, c.ext, c.dst) == c
        case Go(d) => verdict == None && Snapshot(state', size', left', ext', dst') == d
    {
      verdict, state', size', left', ext', dst' := None, state, size, left, ext, dst;
      match state
      case SniLen => ext', state', dst', size' := U16(buf[0], buf[1]), SniHostHead, InBuf(0), 3;
      case SniHostHead =>
        if buf[0] != 0 { return Some(Declined), state, size, left, ext, dst; }
        size' := U16(buf[1], buf[2]);
        if ext < 3 + size' { return Some(Declined), state, size, left, ext, dst; }
        ext' := ext - (3 + size');
        host := new byte[size'];
        state', dst' := SniHost, InHost(0);
      case SniHost =>
        hostLen := U16(buf[1], buf[2]);
        state', dst', size' := Ext, Null, ext;
    }

    method SwitchAlpn(ghost c: Ctx, state: State, size: nat, left: nat, ext: nat, dst: Dst)
      returns (verdict: Option<Verdict>, state': State, size': nat, left': nat, ext': nat, dst': Dst)
      requires Separate() && c == Snapshot(state, size, left, ext, dst) && Valid(c) && size == 0
      requires state in {AlpnLen, AlpnProtoLen}
      modifies version, `host, `hostLen, `alpn, `alpnLen, alpn
      ensures Separate() && (host == old(host) || fresh(host)) && (alpn == old(alpn) || fresh(alpn))
      ensures match Advance(c)
        case Stop(v, d) =>
          verdict == Some(v) && d == c && Snapshot(c.state, c.size, c.left, c.ext, c.dst) == c
        case Go(d) => verdict == None && Snapshot(state', size', left', ext', dst') == d
    {
      verdict, state', size', left', ext', dst' := None, state, size, left, ext, dst;
      match state
      case AlpnLen =>
        ext' := U16(buf[0], buf[1]);
        alpn := new byte[ext'];
        state', dst', size' := AlpnProtoLen, InBuf(0), 1;
      case AlpnProtoLen =>
        size' := buf[0];
        if size' == 0 || ext < 1 + size' { return Some(Declined), state, size, left, ext, dst; }
        ext' := ext - (1 + size');
        state', dst' := AlpnProtoData, InAlpn(alpnLen);
    }

    method SwitchAlpnName(ghost c: Ctx, state: State, size: nat, left: nat, ext: nat, dst: Dst)
      returns (verdict: Option<Verdict>, state': State, size': nat, left': nat, ext': nat, dst': Dst)
      requires Separate() && c == Snapshot(state, size, left, ext, dst) && Valid(c) && size == 0
      requires state == AlpnProtoData
      modifies version, `host, `hostLen, `alpn, `alpnLen, alpn
      ensures Separate() && (host == old(host) || fresh(host)) && (alpn == old(alpn) || fresh(alpn))
      ensures match Advance(c)
        case Stop(v, d) =>
          verdict == Some(v) && d == c && Snapshot(c.state, c.size, c.left, c.ext, c.dst) == c
        case Go(d) => verdict == None && Snapshot(state', size', left', ext', dst') == d
    {
      verdict, state', size', left', ext', dst' := None, state, size, left, ext, dst;
      alpnLen := alpnLen + buf[0];
      if ext != 0 {
        alpn[alpnLen] := ',' as int;
        alpnLen := alpnLen + 1;
        state', dst', size' := AlpnProtoLen, InBuf(0), 1;
        assert alpn[..alpnLen] == c.alpn.bytes + [',' as int];
      } else {
        state', dst', size' := Ext, Null, 0;
      }
    }

    /** The switch of the parser, once the pending field is complete. */
    method Switch(ghost c: Ctx, state: State, size: nat, left: nat, ext: nat, dst: Dst)
      returns (verdict: Option<Verdict>, state': State, size': nat, left': nat, ext': nat, dst': Dst)
      requires Separate() && c == Snapshot(state, size, left, ext, dst) && Valid(c) && size == 0
      modifies version, `host, `hostLen, `alpn, `alpnLen, alpn
      ensures Separate() && (host == old(host) || fresh(host)) && (alpn == old(alpn) || fresh(alpn))
      ensures match Advance(c)
        case Stop(v, d) =>
          verdict == Some(v) && d == c && Snapshot(c.state, c.size, c.left, c.ext, c.dst) == c
        case Go(d) => verdict == None && Snapshot(state', size', left', ext', dst') == d
    {
      hide FieldValid, PrereadSpec.Advance;
      match state
      case Start | Header | Version | Random | SidLen | Sid | CsLen | Cs | CmLen =>
        verdict, state', size', left', ext', dst' := SwitchHello(c, state, size, left, ext, dst);
      case Cm | Ext | ExtHeader | SupverLen =>
        verdict, state', size', left', ext', dst' := SwitchExtensions(c, state, size, left, ext, dst);
      case SniLen | SniHostHead | SniHost =>
        verdict, state', size', left', ext', dst' := SwitchSni(c, state, size, left, ext, dst);
      case AlpnLen | AlpnProtoLen =>
        verdict, state', size', left', ext', dst' := SwitchAlpn(c, state, size, left, ext, dst);
      case AlpnProtoData =>
        verdict, state', size', left', ext', dst' := SwitchAlpnName(c, state, size, left, ext, dst);
    }

    /** On success the variables see what the specification reports. */
    lemma OkExposed(c: Ctx)
      requires Valid(c) && c.size == 0 && Advance(c) == Stop(Ok, c)
      requires c == Snapshot(c.state, c.size, c.left, c.ext, c.dst)
      ensures Exposed() == OutputOf(c)
    {
      assert c.state == Cm || c.state == Ext;
      assert host != null ==> host[..][..hostLen] == host[..hostLen];
      assert alpn != null ==> alpn[..alpnLen][..alpnLen] == alpn[..alpnLen];
    }

    /** One turn of the parser loop: `n` bytes are taken, and the switch runs if the field is complete. */
    method TakeTurn(ghost c: Ctx, input: seq<byte>, state: State, size: nat, left: nat, ext: nat, dst: Dst)
      returns (n: nat, verdict: Option<Verdict>, more: bool,
               state': State, size': nat, left': nat, ext': nat, dst': Dst)
      requires Separate() && c == Snapshot(state, size, left, ext, dst) && Valid(c)
      modifies buf, version, `host, `hostLen, `alpn, `alpnLen, host, alpn
      ensures Separate() && (host == old(host) || fresh(host)) && (alpn == old(alpn) || fresh(alpn))
      ensures n == Min(|input|, size)
      ensures match Turn(c, input)
        case More(d) => verdict == None && more && Snapshot(state', size', left', ext', dst') == d
        case Next(d) => verdict == None && !more && Snapshot(state', size', left', ext', dst') == d
        case Halt(v, out) => verdict == Some(v) && (v == Ok ==> Exposed() == out)
    {
      hide FieldValid, Fill, PrereadSpec.Advance;
      n := Min(|input|, size);
      verdict, more, state', size', left', ext' := None, true, state, size - n, left - n, ext;
      dst' := Copy(c, dst, input[..n]);
      if size' == 0 {
        FillValid(c, input[..n]);
        ghost var d := Fill(c, input[..n]);
        verdict, state', size', left', ext', dst' := Switch(d, state', size', left', ext', dst');
        more := false;
        if verdict == Some(Ok) {
          OkExposed(d);
        } else if verdict == None && left' < size' {
          verdict := Some(Declined);
        }
      }
    }

    /** Writes the parser's local variables back to the context. */
    method Save(state: State, size: nat, left: nat, ext: nat, dst: Dst)
      modifies `state, `size, `left, `ext, `dst
      ensures View() == Snapshot(state, size, left, ext, dst) == old(Snapshot(state, size, left, ext, dst))
    {
      this.state, this.size, this.left, this.ext, this.dst := state, size, left, ext, dst;
    }

    lemma ViewIsSnapshot()
      ensures View() == Snapshot(state, size, left, ext, dst)
    {
    }

    lemma SnapshotFields(state: State, size: nat, left: nat, ext: nat, dst: Dst)
      ensures Snapshot(state, size, left, ext, dst).size == size
    {
    }

    /** The parser loop over one record body. */
    method ParseRecord(input: seq<byte>) returns (verdict: Option<Verdict>)
      requires Separate() && Valid(View())
      modifies this, buf, version, host, alpn
      ensures Separate() && pos == old(pos)
      ensures (host == old(host) || fresh(host)) && (alpn == old(alpn) || fresh(alpn))
      ensures match Run(old(View()), input)
        case Again(d) => verdict == None && View() == d
        case Done(v, out) => verdict == Some(v) && (v == Ok ==> Exposed() == out)
    {
      hide *;
      var state, size, left, ext, dst := this.state, this.size, this.left, this.ext, this.dst;
      var at := 0;
      ghost var c := View();
      ViewIsSnapshot();
      assert input[0..] == input;
      SnapshotFields(state, size, left, ext, dst);
      while true
        invariant 0 <= at <= |input| && Separate() && pos == old(pos)
        invariant (host == old(host) || fresh(host)) && (alpn == old(alpn) || fresh(alpn))
        invariant c == Snapshot(state, size, left, ext, dst) && c.size == size && Valid(c)
        invariant Run(c, input[at..]) == Run(old(View()), input)
        decreases Phase(c.state), c.left, ZeroRank(c)
      {
        TurnProgress(c, input[at..]);
        RunUnfolds(c, input[at..]);
        var n, more;
        n, verdict, more, state, size, left, ext, dst := TakeTurn(c, input[at..], state, size, left, ext, dst);
        if verdict.Some? { return; }
        ghost var was := c;
        at := at + n;
        MinFits(n, |input| - at + n, c.size);
        assert input[at - n..][n..] == input[at..];
        c := Snapshot(state, size, left, ext, dst);
        SnapshotFields(state, size, left, ext, dst);
        if more { break; }
        SmallerMeans(c, was);
      }
      Save(state, size, left, ext, dst);
    }

    /** Saves where the next unparsed record starts. */
    method SetPos(p: nat)
      modifies `pos
      ensures pos == p && View() == old(View())
    {
      pos := p;
    }

    lemma ExposedIsOutput()
      requires Separate() && Valid(View())
      ensures Exposed() == OutputOf(View())
    {
      var c := View();
      if host != null && c.state == SniHost {
        assert host[..dst.off][..hostLen] == host[..hostLen];
      } else if host != null {
        assert host[..][..hostLen] == host[..hostLen];
      }
      if alpn != null {
        if c.state == AlpnProtoData {
          assert alpn[..dst.off][..alpnLen] == alpn[..alpnLen];
        } else {
          assert alpn[..alpnLen][..alpnLen] == alpn[..alpnLen];
        }
      }
    }

    /** A version 2 ClientHello only sets the version. */
    method AnswerV2(ghost c: Ctx, major: byte, minor: byte)
      requires Separate() && Valid(View()) && c == View()
      modifies version
      ensures Exposed() == OutputOf(c.(version := [major, minor]))
      ensures version[..] == [major, minor]
    {
      ExposedIsOutput();
      version[0], version[1] := major, minor;
      assert version[..] == [major, minor];
    }

    /** The handler loop over the whole records received so far. */
    method Handle(b: seq<byte>) returns (verdict: Option<Verdict>)
      requires Separate() && Valid(View()) && pos <= |b|
      modifies this, buf, version, host, alpn
      ensures Separate()
      ensures (host == old(host) || fresh(host)) && (alpn == old(alpn) || fresh(alpn))
      ensures match Scan(old(View()), b, old(pos))
        case Wait(d, q) => verdict == None && View() == d && pos == q
        case Finish(v, out) => verdict == Some(v) && (v == Ok ==> out == Some(Exposed()))
      ensures var p := old(pos);
        if |b| - p < 5 then verdict == None && pos == p
        else if b[p] >= 0x80 && b[p + 2] == 1 && (b[p + 3] == 0 || b[p + 3] == 3) then
          verdict == Some(Ok) && version[..] == [b[p + 3], b[p + 4]]
        else if b[p] != 0x16 || b[p + 1] != 3 then verdict == Some(Declined)
        else |b| - p < 5 + 256 * (b[p + 3] as int) + b[p + 4] ==> verdict == None && pos == p
    {
      hide Valid, Run, View, Exposed, OutputOf;
      var p := pos;
      ghost var c := View();
      while |b| - p >= 5
        invariant p <= |b| && Separate()
        invariant (host == old(host) || fresh(host)) && (alpn == old(alpn) || fresh(alpn))
        invariant c == View() && Valid(c)
        invariant Scan(c, b, p) == Scan(old(View()), b, old(pos))
        invariant p == old(pos) || (old(pos) + 5 <= |b| && !IsV2Hello(b, old(pos)) && b[old(pos)] == 0x16
                                    && b[old(pos) + 1] == 3 && old(pos) + 5 + RecordLen(b, old(pos)) <= p)
      {
        if IsV2Hello(b, p) {
          AnswerV2(c, b[p + 3], b[p + 4]);
          return Some(Ok);
        }
        if b[p] != 0x16 || b[p + 1] != 3 { return Some(Declined); }
        var len := RecordLen(b, p);
        if |b| - p < len + 5 { break; }
        p := p + 5;
        verdict := ParseRecord(b[p..p + len]);
        if verdict.Some? { return; }
        p := p + len;
        c := View();
      }
      this.SetPos(p);
      verdict := None;
    }
  }

  /** The connection of a session in its preread phase. */
  class Session {
    var ctx: Context?
    var buffer: array?<byte>
    var last: nat

    /** The parser state, which is the initial one before the first call of the handler. */
    ghost predicate Holds(c: Ctx, p: nat)
      reads this, ctx, if ctx != null then {ctx.buf, ctx.version, ctx.host, ctx.alpn} else {}
    {
      if ctx == null then c == INITIAL && p == 0
      else ctx.Separate() && ctx.View() == c && ctx.pos == p
    }

    ghost predicate Received(have: seq<byte>, cap: nat)
      reads this, buffer, ctx
    {
      if buffer == null then have == [] && last == 0 && ctx == null
      else
        && buffer.Length == cap && last <= cap && have == buffer[..last]
        && (ctx != null ==> buffer !in {ctx.buf, ctx.version, ctx.host, ctx.alpn})
    }

    constructor ()
      ensures Holds(INITIAL, 0) && ctx == null && buffer == null && last == 0
    {
      ctx, buffer, last := null, null, 0;
    }

    ghost function Footprint(): set<object?>
      reads this, ctx
    {
      {this, buffer, ctx} + (if ctx != null then {ctx.buf, ctx.version, ctx.host, ctx.alpn} else {}) - {null}
    }

    /** The module's handler: creates the context on its first data and drops it when it declines. */
    method Handler(ghost c: Ctx, ghost p: nat, ghost cap: nat) returns (verdict: Option<Verdict>)
      requires buffer != null && last <= buffer.Length && Received(buffer[..last], cap)
      requires Valid(c) && Holds(c, p) && p <= last
      modifies Footprint() - {buffer}
      ensures buffer == old(buffer) && last == old(last) && Received(buffer[..last], cap)
      ensures forall o :: o in Footprint() ==> o in old(Footprint()) || fresh(o)
      ensures match Scan(c, buffer[..last], p)
        case Wait(d, q) => verdict == None && Holds(d, q) && Valid(d)
        case Finish(v, out) =>
          && verdict == Some(v)
          && (if v == Ok then ctx != null && out == Some(ctx.Exposed()) else ctx == null)
      ensures last - p < 5 ==> verdict == None
      ensures last - p >= 5 ==>
        if buffer[p] >= 0x80 && buffer[p + 2] == 1 && (buffer[p + 3] == 0 || buffer[p + 3] == 3) then
          verdict == Some(Ok) && ctx != null && ctx.version[..] == [buffer[p + 3], buffer[p + 4]]
        else if buffer[p] != 0x16 || buffer[p + 1] != 3 then verdict == Some(Declined) && ctx == null
        else last - p < 5 + 256 * (buffer[p + 3] as int) + buffer[p + 4] ==>
          verdict == None && ctx != null && ctx.pos == p
    {
      hide Scan, Valid, Context.View, Context.Exposed;
      if ctx == null { ctx := new Context(); }
      verdict := ctx.Handle(buffer[..last]);
      if verdict == Some(Declined) { ctx := null; }
    }

    /** Appends what one recv returned. */
    method Receive(bytes: seq<byte>, ghost c: Ctx, ghost p: nat, ghost cap: nat)
      requires buffer != null && last + |bytes| <= buffer.Length && Received(buffer[..last], cap) && Holds(c, p)
      modifies `last, buffer
      ensures buffer == old(buffer) && last == old(last) + |bytes| && buffer[..last] == old(buffer[..last]) + bytes
      ensures Received(buffer[..last], cap) && Holds(c, p) && Footprint() == old(Footprint())
    {
      Blit(buffer, last, bytes);
      last := last + |bytes|;
    }

    /** A recv and, if it returned anything, the handler on all that has been received. */
    method Pump(bytes: seq<byte>, ghost c: Ctx, ghost p: nat, ghost cap: nat) returns (verdict: Option<Verdict>)
      requires buffer != null && last + |bytes| <= buffer.Length && Received(buffer[..last], cap)
      requires Valid(c) && Holds(c, p) && p <= last && Scan(c, buffer[..last], p) == Wait(c, p)
      modifies Footprint()
      ensures buffer == old(buffer) && last == old(last) + |bytes|
      ensures buffer[..last] == old(buffer[..last]) + bytes && Received(buffer[..last], cap)
      ensures forall o :: o in Footprint() ==> o in old(Footprint()) || fresh(o)
      ensures match Scan(c, buffer[..last], p)
        case Wait(d, q) => verdict == None && Holds(d, q) && Valid(d)
        case Finish(v, out) =>
          && verdict == Some(v)
          && (if v == Ok then ctx != null && out == Some(ctx.Exposed()) else ctx == null)
    {
      hide Valid, Context.View, Context.Exposed, Scan, Received, Holds;
      ghost var have := buffer[..last];
      Receive(bytes, c, p, cap);
      verdict := None;
      if |bytes| == 0 {
        assert have + bytes == have;
      } else {
        verdict := Handler(c, p, cap);
      }
    }

    /** The phase's loop, while the handler asks for more. */
    method ReceiveLoop(ghost c: Ctx, ghost p: nat, cap: nat, incoming: seq<byte>, sizes: seq<nat>,
                       over: bool)
      returns (r: Delivered)
      requires buffer != null && last <= cap == buffer.Length && Received(buffer[..last], cap)
      requires p <= last && Valid(c) && Holds(c, p) && Scan(c, buffer[..last], p) == Wait(c, p)
      modifies Footprint()
      ensures r == Deliver(c, p, old(buffer[..last]), cap, incoming, sizes, over)
      ensures r.Passed? && r.verdict == Ok ==> ctx != null && r.output == Some(ctx.Exposed())
      ensures r.Passed? && r.verdict == Declined ==> ctx == null
    {
      hide *;
      ghost var d, q := c, p;
      var at, k := 0, 0;
      ghost var final := Deliver(c, p, buffer[..last], cap, incoming, sizes, over);
      assert incoming[0..] == incoming && sizes[0..] == sizes;
      while true
        invariant buffer != null && last <= cap == buffer.Length && Received(buffer[..last], cap)
        invariant 0 <= q <= last && Valid(d) && Holds(d, q) && Scan(d, buffer[..last], q) == Wait(d, q)
        invariant 0 <= at <= |incoming| && 0 <= k <= |sizes|
        invariant forall o :: o in Footprint() ==> o in old(Footprint()) || fresh(o)
        invariant Deliver(d, q, buffer[..last], cap, incoming[at..], sizes[k..], over) == final
        decreases |sizes| - k
      {
        ghost var have := buffer[..last];
        if last == cap || k == |sizes| {
          DeliverStuck(d, q, have, cap, incoming[at..], sizes[k..], over);
          return if last == cap then BufferFull else if over then Closed else Pending;
        }
        DeliverRecv(d, q, have, cap, incoming, at, sizes, k, over);
        var n := RecvSize(sizes[k], cap - last, |incoming| - at);
        RecvFits(sizes[k], cap - last, |incoming| - at);
        var verdict := Pump(incoming[at..at + n], d, q, cap);
        at, k := at + n, k + 1;
        if verdict.Some? {
          DeliverFinish(d, q, buffer[..last], cap, incoming[at..], sizes[k..], over);
          return Passed(verdict.value, if verdict.value == Ok then Some(ctx.Exposed()) else None);
        }
        DeliverWait(d, q, buffer[..last], cap, incoming[at..], sizes[k..], over);
        ScanAgain(d, buffer[..last], q);
        ghost var waiting := Scan(d, buffer[..last], q);
        d, q := waiting.ctx, waiting.pos;
      }
    }

    /**
     * The preread phase from its start: `sizes` are the amounts the client's bytes become
     * available in, and a recv that finds nothing suspends without calling the handler. Then the
     * client has closed, a recv fails or the timer fires if `over`, or nothing happens any more.
     */
    method PrereadPhase(cap: nat, incoming: seq<byte>, sizes: seq<nat>, over: bool) returns (r: Delivered)
      requires ctx == null && buffer == null && last == 0
      modifies this
      ensures r == Deliver(INITIAL, 0, [], cap, incoming, sizes, over)
      ensures r.Passed? && r.verdict == Ok ==> ctx != null && r.output == Some(ctx.Exposed())
      ensures r.Passed? && r.verdict == Declined ==> ctx == null
      ensures
        && 5 <= Min(Total(sizes), Min(|incoming|, cap))
        && !(incoming[0] >= 0x80 && incoming[2] == 1 && (incoming[3] == 0 || incoming[3] == 3))
        && (incoming[0] != 0x16 || incoming[1] != 3) ==>
          r == Passed(Declined, None) && ctx == null
    {
      if && 5 <= Min(Total(sizes), Min(|incoming|, cap))
         && !(incoming[0] >= 0x80 && incoming[2] == 1 && (incoming[3] == 0 || incoming[3] == 3))
         && (incoming[0] != 0x16 || incoming[1] != 3) {
        NoHandshake(cap, incoming, sizes, over);
      }
      buffer := new byte[cap];
      assert buffer[..last] == [];
      assert Scan(INITIAL, [], 0) == Wait(INITIAL, 0);
      r := ReceiveLoop(INITIAL, 0, cap, incoming, sizes, over);
    }
  }
}
