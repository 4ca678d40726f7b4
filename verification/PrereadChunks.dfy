/** Cutting the input of the ClientHello parser anywhere changes nothing. */
module PrereadChunks {
  import opened Bytes
  import opened PrereadSpec

  lemma OverwriteTwice(s: seq<byte>, off: nat, a: seq<byte>, b: seq<byte>)
    requires off + |a| + |b| <= |s|
    ensures Overwrite(Overwrite(s, off, a), off + |a|, b) == Overwrite(s, off, a + b)
  {
  }

  lemma StoreStore(c: Ctx, a: seq<byte>, b: seq<byte>)
    requires Room(c) && |a| + |b| <= c.size
    ensures var d := Store(c, a).(size := c.size - |a|);
      Room(d) && Store(d, b) == Store(c, a + b).(size := c.size - |a|)
  {
    match c.dst
    case Null =>
    case InBuf(off) => OverwriteTwice(c.buf, off, a, b);
    case InVersion(off) => OverwriteTwice(c.version, off, a, b);
    case InHost(off) => assert c.host.bytes + a + b == c.host.bytes + (a + b);
    case InAlpn(off) => assert c.alpn.bytes + a + b == c.alpn.bytes + (a + b);
  }

  lemma FillFill(c: Ctx, a: seq<byte>, b: seq<byte>)
    requires Valid(c) && |a| + |b| <= c.size
    ensures Valid(Fill(c, a)) && Fill(Fill(c, a), b) == Fill(c, a + b)
  {
    FillValid(c, a);
    StoreStore(c, a, b);
    hide FieldValid;
  }

  /** Running on `a` and, if that asks for more, on `b` is running once on `a + b`. */
  lemma {:induction false} RunConcat(c: Ctx, a: seq<byte>, b: seq<byte>)
    requires Valid(c)
    ensures Run(c, a + b) ==
            match Run(c, a)
            case Again(d) => Run(d, b)
            case Done(_, _) => Run(c, a)
    decreases Phase(c.state), c.left, ZeroRank(c)
  {
    hide Fill, FieldValid, Advance;
    var n := Min(|a|, c.size);
    if |a| < c.size {
      assert a[..n] == a;
      var m := Min(|a + b|, c.size) - |a|;
      assert (a + b)[..|a| + m] == a + b[..m];
      FillFill(c, a, b[..m]);
      var d := Fill(c, a);
      assert Turn(c, a) == More(d);
      assert Turn(c, a + b) == Turn(d, b);
      assert (a + b)[|a| + m..] == b[m..];
    } else {
      assert (a + b)[..n] == a[..n];
      TurnProgress(c, a);
      assert Turn(c, a + b) == Turn(c, a);
      match Turn(c, a) {
        case Next(d) =>
          assert (a + b)[n..] == a[n..] + b;
          RunConcat(d, a[n..], b);
        case Halt(_, _) =>
        case More(_) => assert false;
      }
    }
  }

  /** Feeding a list of pieces, stopping at the first verdict. */
  function Feed(c: Ctx, pieces: seq<seq<byte>>): Outcome
    requires Valid(c)
    decreases |pieces|
  {
    if pieces == [] then Again(c)
    else
      match Run(c, pieces[0])
      case Again(d) => Feed(d, pieces[1..])
      case Done(v, out) => Done(v, out)
  }

  /** Any fragmentation into at least one piece gives what the unfragmented bytes give. */
  lemma {:induction false} FeedIsRun(c: Ctx, pieces: seq<seq<byte>>)
    requires Valid(c) && pieces != []
    ensures Feed(c, pieces) == Run(c, Flatten(pieces))
    decreases |pieces|
  {
    hide Valid, Turn, Run;
    if |pieces| == 1 {
      assert Flatten(pieces[1..]) == [];
      assert pieces[0] + [] == pieces[0];
      match Run(c, pieces[0]) {
        case Again(d) => assert Feed(d, pieces[1..]) == Again(d);
        case Done(_, _) =>
      }
    } else {
      RunConcat(c, pieces[0], Flatten(pieces[1..]));
      match Run(c, pieces[0]) {
        case Again(d) => FeedIsRun(d, pieces[1..]);
        case Done(_, _) =>
      }
    }
  }
}
