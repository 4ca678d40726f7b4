/** The compiler: one pass over the template, appending to both programs and to the list of variables. */
module ScriptCompiler {
  import opened Bytes
  import opened Words
  import opened ScriptTemplate
  import opened Script
  import opened Options

  /** The two words an instruction starts with. */
  function Head(op: Op, full: bool): (h: seq<byte>)
    ensures |h| == CODE_SIZE
  {
    Put(Tag(op, full), 8) + Put(Arg(op), 8)
  }

  lemma LengthImage(op: Op)
    requires Arg(op) < WORD_MAX
    ensures IsImage(op, Head(op, false), false)
  {
  }

  lemma ByteImage(op: Op, pad: seq<byte>)
    requires Arg(op) < WORD_MAX && |pad| == Align8(|Data(op)|) - |Data(op)|
    ensures IsImage(op, Head(op, true) + Data(op) + pad, true)
  {
    var x := Head(op, true) + Data(op) + pad;
    assert x[..8] == Put(Tag(op, true), 8) && x[8..16] == Put(Arg(op), 8);
    assert x[16..16 + |Data(op)|] == Data(op);
  }

  lemma AlignRoom(n: nat)
    ensures n <= Align8(n) < n + 8 && Align8(CODE_SIZE + n) == CODE_SIZE + Align8(n)
  {
  }

  /** Fresh pool memory of unknown content. */
  method Junk(n: nat) returns (r: seq<byte>)
    ensures |r| == n
  {
    r := *;
    if |r| != n { r := Zeros(n); }
  }

  lemma CopyFits(value: Text, nul: bool, pad: seq<byte>)
    requires |value| < WORD_MAX - 1
    ensures var op := Copy(value + Nul(nul));
      var len := |value| + if nul then 1 else 0;
      && Arg(op) == len < WORD_MAX && Data(op) == value + Nul(nul)
      && Align8(CODE_SIZE + len) - CODE_SIZE == Align8(|Data(op)|)
      && Head(op, false) == Put(1, 8) + Put(len, 8) && Head(op, true) == Put(4, 8) + Put(len, 8)
      && UsedBy(op) == [] && value + [] == value
      && (if nul then value + [0] else value) == Data(op)
  {
  }

  lemma HeadIs(op: Op)
    ensures Data(op) == [] ==> Align8(|Data(op)|) == 0
    ensures Head(op, false) == Put(Tag(op, false), 8) + Put(Arg(op), 8)
    ensures Head(op, true) == Put(Tag(op, true), 8) + Put(Arg(op), 8)
    ensures op.Var? ==> Data(op) == [] && UsedBy(op) == [op.index] && Arg(op) == op.index
    ensures op.Var? ==> Tag(op, false) == 2 && Tag(op, true) == 5
    ensures op.Capture? ==> Data(op) == [] && UsedBy(op) == [] && Arg(op) == op.n
    ensures op.Capture? ==> Tag(op, false) == 3 && Tag(op, true) == 6
  {
  }

  /** One more instruction in both programs. */
  lemma Appended(ops: seq<Op>, op: Op, lengths: seq<byte>, values: seq<byte>, tail: seq<byte>)
    requires Program(ops, lengths, false, []) && Program(ops, values, true, []) && Arg(op) < WORD_MAX
    requires |Data(op)| <= |tail| && tail[..|Data(op)|] == Data(op) && |tail| == Align8(|Data(op)|)
    ensures Program(ops + [op], lengths + Head(op, false), false, [])
    ensures Program(ops + [op], values + Head(op, true) + tail, true, [])
    ensures Used(ops + [op]) == Used(ops) + UsedBy(op)
    ensures tail == [] ==> values + Head(op, true) + tail == values + Head(op, true)
  {
    LengthImage(op);
    ProgramGrows(ops, lengths, false, op, Head(op, false));
    var pad := tail[|Data(op)|..];
    ByteImage(op, pad);
    assert tail == Data(op) + pad;
    UsedGrows(ops, op);
    hide *;
    ProgramGrows(ops, values, true, op, Head(op, true) + Data(op) + pad);
    Assoc(Head(op, true), Data(op), pad);
    Assoc(values, Head(op, true), tail);
  }

  lemma LowerTwice(name: Text)
    ensures Lower(Lower(name)) == Lower(name)
  {
  }

  lemma NulText()
    ensures [0] + Nul(false) == [0]
  {
  }

  /** The compiler's loop at `i`: the pieces `ps` are read and compiled. */
  ghost predicate Scanned(source: Text, ops: seq<Op>, ps: seq<Piece>, table: seq<Text>, zero: bool, zero0: bool,
                          count: nat, i: nat, room: nat) {
    && i <= |source| && Parse(source) == Before(ps, Parse(source[i..]))
    && count + CountVariables(source[i..]) == CountVariables(source)
    && |table| + |source| - i <= room
    && (i < |source| ==> zero == zero0) && (zero ==> zero0)
    && Known(ps, table) && Tells(ops, ps, table, Nul(zero0 && !zero))
  }

  lemma ScanBegin(source: Text, table: seq<Text>, zero: bool, room: nat)
    requires |table| + |source| <= room
    ensures Scanned(source, [], [], table, zero, zero, 0, 0, room)
  {
    assert source[0..] == source;
    match Parse(source)
    case None =>
    case Some(qs) => assert [] + qs == qs;
  }

  lemma ScanEnd(source: Text, ops: seq<Op>, ps: seq<Piece>, table: seq<Text>, zero: bool, zero0: bool,
                count: nat, i: nat, room: nat)
    requires Scanned(source, ops, ps, table, zero, zero0, count, i, room) && i == |source|
    ensures Parse(source) == Some(ps) && count == CountVariables(source) && |table| <= room && Known(ps, table)
    ensures Tells(ops + (if zero then [Copy([0])] else []), ps, table, Nul(zero0))
  {
    assert ps + [] == ps;
    if zero {
      TellsNul(ops, ps, table);
    } else {
      assert ops + [] == ops;
    }
  }

  lemma ShortPiece(s: Text)
    ensures s == [DOLLAR] ==> ReadPiece(s).Invalid?
    ensures |s| == 2 && s[0] == DOLLAR && s[1] == OPEN ==> ReadPiece(s).Invalid?
  {
    if |s| == 2 { assert NameLen(s[2..]) == 0; }
  }

  /** What cannot be read makes the template invalid. */
  lemma Unread(source: Text, ops: seq<Op>, ps: seq<Piece>, table: seq<Text>, zero: bool, zero0: bool,
               count: nat, i: nat, room: nat)
    requires Scanned(source, ops, ps, table, zero, zero0, count, i, room) && i < |source|
    ensures source[i..] != [] && count <= CountVariables(source)
    ensures ReadPiece(source[i..]).Invalid? ==> Parse(source).None?
    ensures source[i] == DOLLAR && i + 1 == |source| ==> ReadPiece(source[i..]).Invalid?
    ensures source[i] == DOLLAR && i + 2 == |source| && source[i + 1] == OPEN ==> ReadPiece(source[i..]).Invalid?
  {
    hide CountVariables, Known, Tells, LiteralLen;
    ShortPiece(source[i..]);
    assert i + 1 < |source| ==> source[i..][1] == source[i + 1];
  }

  lemma BeforeTwice(ps: seq<Piece>, qs: seq<Piece>, rest: Option<seq<Piece>>)
    ensures Before(ps, Before(qs, rest)) == Before(ps + qs, rest)
  {
    if rest.Some? { Assoc(ps, qs, rest.value); }
  }

  lemma ParseMore(source: Text, ps: seq<Piece>, i: nat)
    requires i < |source| && Parse(source) == Before(ps, Parse(source[i..])) && ReadPiece(source[i..]).Read?
    ensures var r := ReadPiece(source[i..]);
      && 0 < r.len && i + r.len <= |source| && source[i..][r.len..] == source[i + r.len..]
      && Parse(source) == Before(ps + [r.piece], Parse(source[i + r.len..]))
  {
    hide ReadPiece;
    var r := ReadPiece(source[i..]);
    assert source[i..][r.len..] == source[i + r.len..];
    BeforeTwice(ps, [r.piece], Parse(source[i + r.len..]));
  }

  lemma ScanFacts(source: Text, ops: seq<Op>, ps: seq<Piece>, table: seq<Text>, zero: bool, zero0: bool,
                  count: nat, i: nat, room: nat)
    requires Scanned(source, ops, ps, table, zero, zero0, count, i, room)
    ensures i <= |source| && Parse(source) == Before(ps, Parse(source[i..]))
    ensures count + CountVariables(source[i..]) == CountVariables(source) && |table| + |source| - i <= room
    ensures (i < |source| ==> zero == zero0) && (zero ==> zero0)
    ensures Known(ps, table) && Tells(ops, ps, table, Nul(zero0 && !zero))
    ensures Nul(false) == []
  {
  }

  lemma ScanIs(source: Text, ops: seq<Op>, ps: seq<Piece>, table: seq<Text>, zero: bool, zero0: bool,
               count: nat, i: nat, room: nat)
    requires i <= |source| && Parse(source) == Before(ps, Parse(source[i..]))
    requires count + CountVariables(source[i..]) == CountVariables(source) && |table| + |source| - i <= room
    requires (i < |source| ==> zero == zero0) && (zero ==> zero0)
    requires Known(ps, table) && Tells(ops, ps, table, Nul(zero0 && !zero))
    ensures Scanned(source, ops, ps, table, zero, zero0, count, i, room)
  {
  }

  /** One piece read and compiled. */
  lemma Taken(source: Text, ops: seq<Op>, ps: seq<Piece>, table: seq<Text>, zero: bool, zero0: bool,
              count: nat, i: nat, room: nat, op: Op, table': seq<Text>, zero': bool)
    requires Scanned(source, ops, ps, table, zero, zero0, count, i, room) && i < |source|
    requires ReadPiece(source[i..]).Read?
    requires var r := ReadPiece(source[i..]);
      && Known(ps + [r.piece], table') && Tells(ops, ps, table', []) && |table'| <= |table| + 1
      && (zero' ==> zero) && (i + r.len < |source| ==> zero' == zero)
      && forall env :: Denote(op, env) == Value(r.piece, table', env) + Nul(zero && !zero')
    ensures var r := ReadPiece(source[i..]);
      Scanned(source, ops + [op], ps + [r.piece], table', zero', zero0,
              count + (if r.piece.Variable? then 1 else 0), i + r.len, room)
  {
    hide *;
    var r := ReadPiece(source[i..]);
    ScanFacts(source, ops, ps, table, zero, zero0, count, i, room);
    ParseMore(source, ps, i);
    ReadCounts(source[i..]);
    TellsMore(ops, ps, table', op, r.piece, Nul(zero && !zero'));
    ScanIs(source, ops + [op], ps + [r.piece], table', zero', zero0,
           count + (if r.piece.Variable? then 1 else 0), i + r.len, room);
  }

  lemma KnownMore(ps: seq<Piece>, p: Piece, table: seq<Text>)
    requires Known(ps, table) && (p.Variable? ==> IndexIn(table, p.name) < |table|)
    ensures Known(ps + [p], table)
  {
  }

  lemma LiteralRead(source: Text, i: nat)
    requires i < |source| && source[i] != DOLLAR
    ensures var j := i + LiteralLen(source[i..]);
      i < j <= |source| && ReadPiece(source[i..]) == Read(Literal(source[i..j]), j - i)
  {
    var j := i + LiteralLen(source[i..]);
    assert source[i..][..j - i] == source[i..j];
  }

  lemma CopyTells(t: Text, table: seq<Text>, zero: bool, last: bool)
    ensures forall env :: Denote(Copy(t + Nul(zero && last)), env) ==
                          Value(Literal(t), table, env) + Nul(zero && !(zero && !last))
  {
  }

  lemma TakeLiteral(source: Text, ops: seq<Op>, ps: seq<Piece>, table: seq<Text>, zero: bool, zero0: bool,
                    count: nat, i: nat, room: nat)
    requires Scanned(source, ops, ps, table, zero, zero0, count, i, room) && i < |source|
    requires source[i] != DOLLAR && |source| < WORD_MAX - 1
    ensures var j := i + LiteralLen(source[i..]);
      && i < j <= |source| && |source[i..j]| < WORD_MAX - 1
      && ReadPiece(source[i..]) == Read(Literal(source[i..j]), j - i)
      && Scanned(source, ops + [Copy(source[i..j] + Nul(zero && j == |source|))], ps + [Literal(source[i..j])],
                 table, zero && j != |source|, zero0, count, j, room)
  {
    hide *;
    ScanFacts(source, ops, ps, table, zero, zero0, count, i, room);
    var j := i + LiteralLen(source[i..]);
    var p := Literal(source[i..j]);
    var op := Copy(source[i..j] + Nul(zero && j == |source|));
    LiteralRead(source, i);
    KnownMore(ps, p, table);
    CopyTells(source[i..j], table, zero, j == |source|);
    Taken(source, ops, ps, table, zero, zero0, count, i, room, op, table, zero && j != |source|);
  }

  lemma GroupRead(source: Text, i: nat)
    requires i + 1 < |source| && source[i] == DOLLAR && GroupByte(source[i + 1])
    ensures ReadPiece(source[i..]) == Read(Group(source[i + 1] - 0x30), 2) && 1 <= source[i + 1] - 0x30 <= 9
  {
  }

  lemma CaptureTells(d: nat, table: seq<Text>, zero: bool)
    ensures forall env :: Denote(Capture(2 * d), env) == Value(Group(d), table, env) + Nul(zero && !zero)
  {
    forall env ensures Denote(Capture(2 * d), env) == Value(Group(d), table, env) + Nul(zero && !zero) {
      assert env.group(2 * d) + [] == env.group(2 * d);
    }
  }

  lemma TakeGroup(source: Text, ops: seq<Op>, ps: seq<Piece>, table: seq<Text>, zero: bool, zero0: bool,
                  count: nat, i: nat, room: nat)
    requires Scanned(source, ops, ps, table, zero, zero0, count, i, room)
    requires i + 1 < |source| && source[i] == DOLLAR && GroupByte(source[i + 1])
    ensures var d := source[i + 1] - 0x30;
      && 1 <= d <= 9 && ReadPiece(source[i..]) == Read(Group(d), 2)
      && Scanned(source, ops + [Capture(2 * d)], ps + [Group(d)], table, zero, zero0, count, i + 2, room)
  {
    hide *;
    ScanFacts(source, ops, ps, table, zero, zero0, count, i, room);
    GroupRead(source, i);
    var d: nat := source[i + 1] - 0x30;
    KnownMore(ps, Group(d), table);
    CaptureTells(d, table, zero);
    Taken(source, ops, ps, table, zero, zero0, count, i, room, Capture(2 * d), table, zero);
  }

  /** What the scan of a name has found, from the dollar at `k` on: the next piece, or none. */
  lemma NameRead(source: Text, k: nat, i: nat, len: nat, bracket: bool)
    requires k + 1 < |source| && source[k] == DOLLAR && !GroupByte(source[k + 1])
    requires source[k + 1] == OPEN <==> bracket
    requires i == k + (if bracket then 2 else 1) <= |source| && len == NameLen(source[i..])
    ensures i + len <= |source|
    ensures ReadPiece(source[k..]) ==
      if len == 0 || (bracket && (i + len == |source| || source[i + len] != CLOSE)) then Invalid
      else Read(Variable(source[i..i + len], bracket), len + if bracket then 3 else 1)
  {
    hide LiteralLen, GroupByte, NameByte;
    var s := source[k..];
    assert s[0] == source[k] && s[1] == source[k + 1];
    if bracket {
      assert s[2..] == source[i..] && s[2..2 + len] == source[i..i + len];
      assert i + len < |source| ==> s[2 + len] == source[i + len];
    } else {
      assert s[1..] == source[i..] && s[1..1 + len] == source[i..i + len];
    }
  }

  lemma VarTells(p: Piece, table: seq<Text>, zero: bool)
    requires p.Variable?
    ensures forall env :: Denote(Var(IndexIn(table, p.name)), env) == Value(p, table, env) + Nul(zero && !zero)
  {
    forall env ensures Denote(Var(IndexIn(table, p.name)), env) == Value(p, table, env) + Nul(zero && !zero) {
      assert Value(p, table, env) + [] == Value(p, table, env);
    }
  }

  lemma TakeVariable(source: Text, ops: seq<Op>, ps: seq<Piece>, table: seq<Text>, zero: bool, zero0: bool,
                     count: nat, i: nat, room: nat)
    requires Scanned(source, ops, ps, table, zero, zero0, count, i, room) && i < |source|
    requires ReadPiece(source[i..]).Read? && ReadPiece(source[i..]).piece.Variable?
    ensures count < CountVariables(source) && |table| <= room
    ensures var r := ReadPiece(source[i..]);
      var n := r.piece.name;
      var table' := if IndexIn(table, n) < |table| then table else table + [Lower(n)];
      && i + r.len <= |source|
      && Scanned(source, ops + [Var(IndexIn(table', n))], ps + [r.piece], table', zero, zero0,
                 count + 1, i + r.len, room)
  {
    hide *;
    ScanFacts(source, ops, ps, table, zero, zero0, count, i, room);
    ReadCounts(source[i..]);
    var r := ReadPiece(source[i..]);
    var n := r.piece.name;
    var table' := if IndexIn(table, n) < |table| then table else table + [Lower(n)];
    if IndexIn(table, n) == |table| {
      TellsTable(ops, ps, table, Lower(n), []);
      IndexGrows(table, n, Lower(n));
      LowerTwice(n);
    }
    KnownMore(ps, r.piece, table');
    VarTells(r.piece, table', zero);
    Taken(source, ops, ps, table, zero, zero0, count, i, room, Var(IndexIn(table', n)), table', zero);
  }

  class Compiler {
    const source: Text
    const flushes: array<int>
    var count: nat
    var table: seq<Text>
    var lengths: seq<byte>
    var values: seq<byte>
    var zero: bool
    ghost var ops: seq<Op>

    ghost predicate Valid()
      reads this, flushes
    {
      && count <= flushes.Length && flushes[..count] == Used(ops)
      && Program(ops, lengths, false, []) && Program(ops, values, true, [])
      && |table| + |source| < WORD_MAX && OpsOk(ops, |table|)
    }

    /** The arrays of `compile_complex_value`: room for one index more than there are variables. */
    constructor (source: Text, table: seq<Text>, zero: bool, variables: nat)
      requires |table| + |source| < WORD_MAX
      ensures this.source == source && this.table == table && this.zero == zero
      ensures Valid() && ops == [] && count == 0 && flushes.Length == variables + 1 && fresh(flushes)
    {
      this.source, this.table, this.zero := source, table, zero;
      flushes := new int[variables + 1];
      count, lengths, values, ops := 0, [], [], [];
    }

    /** `add_copy_code`: the last literal takes a pending NUL with it. */
    method AddCopyCode(value: Text, last: bool)
      requires Valid() && |value| < WORD_MAX - 1
      modifies this`lengths, this`values, this`zero, this`ops
      ensures Valid() && zero == (old(zero) && !last)
      ensures ops == old(ops) + [Copy(value + Nul(old(zero) && last))]
    {
      hide Put, Program, Head, Used, UsedBy, Align8, Data, Arg, Tag, Nul, Lower, IndexIn, OpsOk;
      AlignRoom(|value| + if zero && last then 1 else 0);
      var len := |value| + if zero && last then 1 else 0;
      var pad := Junk(Align8(CODE_SIZE + len) - CODE_SIZE - len);
      ghost var op := Copy(value + Nul(zero && last));
      CopyFits(value, zero && last, pad);
      OpsGrow(ops, op, |table|, |table|);
      Appended(ops, op, lengths, values, Data(op) + pad);
      lengths := lengths + (Put(1, 8) + Put(len, 8));
      var text := value;
      values := values + (Put(4, 8) + Put(len, 8));
      if zero && last {
        text := text + [0];
        zero := false;
      }
      values := values + (text + pad);
      ops := ops + [op];
    }

    /** `get_variable_index`: the index of the name, which is added if it is new. */
    method VariableIndex(name: Text) returns (index: nat)
      modifies this`table
      ensures index < |table| && index == IndexIn(table, name)
      ensures table == if IndexIn(old(table), name) < |old(table)| then old(table) else old(table) + [Lower(name)]
    {
      for i := 0 to |table|
        invariant table == old(table)
        invariant forall j :: 0 <= j < i ==> Lower(table[j]) != Lower(name)
      {
        if Lower(table[i]) == Lower(name) {
          IndexFirst(table, name, i);
          return i;
        }
      }
      IndexFirst(table, name, |table|);
      IndexGrows(table, name, Lower(name));
      LowerTwice(name);
      table := table + [Lower(name)];
      return |table| - 1;
    }

    /** `add_var_code`: the index goes to the flush list and into both programs. */
    method AddVarCode(name: Text)
      requires Valid() && count < flushes.Length && |table| + |source| < WORD_MAX - 1
      modifies this`count, this`table, this`lengths, this`values, this`ops, flushes
      ensures Valid() && count == old(count) + 1
      ensures ops == old(ops) + [Var(IndexIn(table, name))] && IndexIn(table, name) < |table|
      ensures table == if IndexIn(old(table), name) < |old(table)| then old(table) else old(table) + [Lower(name)]
      ensures old(table) <= table
    {
      hide Put, Program, Head, Used, UsedBy, Align8, Data, Arg, Tag, Nul, Lower, IndexIn, OpsOk;
      var index := VariableIndex(name);
      flushes[count] := index;
      count := count + 1;
      ghost var op := Var(index);
      OpsGrow(ops, op, |old(table)|, |table|);
      UsedGrows(ops, op);
      HeadIs(op);
      Appended(ops, op, lengths, values, []);
      lengths := lengths + (Put(2, 8) + Put(index, 8));
      values := values + (Put(5, 8) + Put(index, 8));
      ops := ops + [op];
    }

    /** `add_capture_code`: captures come in pairs. */
    method AddCaptureCode(n: nat)
      requires Valid() && n <= 9
      modifies this`lengths, this`values, this`ops
      ensures Valid() && ops == old(ops) + [Capture(2 * n)]
    {
      hide Put, Program, Head, Used, UsedBy, Align8, Data, Arg, Tag, Nul, Lower, IndexIn, OpsOk;
      ghost var op := Capture(2 * n);
      OpsGrow(ops, op, |table|, |table|);
      UsedGrows(ops, op);
      HeadIs(op);
      Appended(ops, op, lengths, values, []);
      lengths := lengths + (Put(3, 8) + Put(2 * n, 8));
      values := values + (Put(6, 8) + Put(2 * n, 8));
      ops := ops + [op];
    }

    /** The literal from `i` on: up to the next dollar or the end. */
    method ScanLiteral(i: nat) returns (j: nat)
      requires i < |source|
      ensures j == i + LiteralLen(source[i..])
    {
      j := i;
      while j < |source|
        invariant i <= j <= |source|
        invariant i + LiteralLen(source[i..]) == j + LiteralLen(source[j..])
      {
        if source[j] == DOLLAR { break; }
        assert source[j..][1..] == source[j + 1..];
        j := j + 1;
      }
    }

    /** The name from `i` on, and the closing bracket behind it if one is open. */
    method ScanName(i: nat, bracket: bool) returns (next: nat, len: nat, open: bool)
      requires i <= |source|
      ensures len == NameLen(source[i..])
      ensures open <==> bracket && (i + len == |source| || source[i + len] != CLOSE)
      ensures next == i + len + if bracket && !open then 1 else 0
    {
      next, len, open := i, 0, bracket;
      while next < |source|
        invariant next == i + len <= |source| && open == bracket
        invariant NameLen(source[i..]) == len + NameLen(source[next..])
      {
        var ch := source[next];
        if ch == CLOSE && open {
          next := next + 1;
          open := false;
          return;
        }
        if !NameByte(ch) { break; }
        assert source[next..][1..] == source[next + 1..];
        next, len := next + 1, len + 1;
      }
    }

    /** The variable whose dollar is at `k`, braced or not. */
    method CompileVariable(k: nat, ghost ps: seq<Piece>, ghost zero0: bool, ghost room: nat)
      returns (ok: bool, next: nat)
      requires Valid() && Scanned(source, ops, ps, table, zero, zero0, count, k, room)
      requires k + 1 < |source| && source[k] == DOLLAR && !GroupByte(source[k + 1])
      requires flushes.Length == CountVariables(source) + 1 && room + |source| < WORD_MAX - 1
      modifies this`count, this`table, this`lengths, this`values, this`ops, flushes
      ensures Valid() && old(table) <= table
      ensures !ok ==> Parse(source).None? && count <= CountVariables(source)
      ensures ok ==> k < next <= |source|
      ensures ok ==>
        && ReadPiece(source[k..]).Read?
        && Scanned(source, ops, ps + [ReadPiece(source[k..]).piece], table, zero, zero0, count, next, room)
    {
      hide *;
      Unread(source, ops, ps, table, zero, zero0, count, k, room);
      var i := k + 1;
      var bracket := source[i] == OPEN;
      if bracket {
        i := i + 1;
        if i == |source| { return false, i; }
      }
      var len, open;
      next, len, open := ScanName(i, bracket);
      NameRead(source, k, i, len, bracket);
      if open || len == 0 { return false, next; }
      TakeVariable(source, ops, ps, table, zero, zero0, count, k, room);
      AddVarCode(source[i..i + len]);
      ok := true;
    }

    /** One turn of the compiler's loop: the piece at `k`. */
    method CompilePiece(k: nat, ghost ps: seq<Piece>, ghost zero0: bool, ghost room: nat)
      returns (ok: bool, next: nat)
      requires Valid() && Scanned(source, ops, ps, table, zero, zero0, count, k, room) && k < |source|
      requires flushes.Length == CountVariables(source) + 1 && room + |source| < WORD_MAX - 1
      modifies this`count, this`table, this`lengths, this`values, this`zero, this`ops, flushes
      ensures Valid() && old(table) <= table
      ensures !ok ==> Parse(source).None? && count <= CountVariables(source)
      ensures ok ==> k < next <= |source|
      ensures ok ==>
        && ReadPiece(source[k..]).Read?
        && Scanned(source, ops, ps + [ReadPiece(source[k..]).piece], table, zero, zero0, count, next, room)
    {
      hide *;
      Unread(source, ops, ps, table, zero, zero0, count, k, room);
      if source[k] == DOLLAR {
        if k + 1 == |source| { return false, k + 1; }
        if GroupByte(source[k + 1]) {
          TakeGroup(source, ops, ps, table, zero, zero0, count, k, room);
          AddCaptureCode(source[k + 1] - 0x30);
          return true, k + 2;
        }
        ok, next := CompileVariable(k, ps, zero0, room);
      } else {
        next := ScanLiteral(k);
        TakeLiteral(source, ops, ps, table, zero, zero0, count, k, room);
        AddCopyCode(source[k..next], next == |source|);
        ok := true;
      }
    }

    /** `script_done`: a NUL still pending gets an instruction, and both programs their end. */
    method Done()
      requires Valid()
      modifies this
      ensures ops == old(ops) + (if old(zero) then [Copy([0])] else [])
      ensures Program(ops, lengths, false, Put(0, 8)) && Program(ops, values, true, Put(0, 8))
      ensures table == old(table) && count == old(count) && flushes[..count] == Used(ops) && OpsOk(ops, |table|)
    {
      hide Put, Program, Used, Nul, OpsOk;
      if zero {
        NulText();
        AddCopyCode([0], false);
      }
      ProgramEnds(ops, lengths, false, Put(0, 8));
      ProgramEnds(ops, values, true, Put(0, 8));
      lengths := lengths + Put(0, 8);
      values := values + Put(0, 8);
    }

    /**
     * `script_compile`: it succeeds on exactly the well-formed templates, and then both programs
     * stand for the template with every piece replaced, and one NUL behind it if asked for.
     */
    method Compile(ghost room: nat) returns (ok: bool)
      requires Valid() && ops == [] && count == 0 && flushes.Length == CountVariables(source) + 1
      requires |table| + |source| <= room && room + |source| < WORD_MAX - 1
      modifies this, flushes
      ensures ok <==> Parse(source).Some?
      ensures count <= CountVariables(source)
      ensures ok ==>
        && Tells(ops, Parse(source).value, table, Nul(old(zero))) && Known(Parse(source).value, table)
        && Program(ops, lengths, false, Put(0, 8)) && Program(ops, values, true, Put(0, 8))
        && flushes[..count] == Used(ops) && count == CountVariables(source)
        && OpsOk(ops, |table|) && old(table) <= table && |table| <= room
    {
      hide *;
      var i := 0;
      ghost var ps: seq<Piece>, zero0 := [], zero;
      ScanBegin(source, table, zero, room);
      while i < |source|
        invariant Valid() && i <= |source| && flushes.Length == CountVariables(source) + 1
        invariant Scanned(source, ops, ps, table, zero, zero0, count, i, room) && old(table) <= table
        decreases |source| - i
      {
        ghost var k := i;
        ok, i := CompilePiece(i, ps, zero0, room);
        if !ok { return; }
        ps := ps + [ReadPiece(source[k..]).piece];
      }
      ScanEnd(source, ops, ps, table, zero, zero0, count, i, room);
      Done();
      ok := true;
    }
  }

  // ----- complex values -----

  /** A value without variables is its text; others have both programs and, if needed, a flush list. */
  datatype Complex =
    | Failed
    | Constant(text: Text)
    | Dynamic(flushes: array?<int>, lengths: seq<byte>, values: seq<byte>)

  /** The indices `used` with the end mark behind them, or nothing if there are none. */
  ghost predicate FlushList(flushes: array?<int>, used: seq<int>)
    reads flushes
  {
    if used == [] then flushes == null
    else flushes != null && |used| < flushes.Length && flushes[..|used|] == used && flushes[|used|] == -1
  }

  /** `compile_complex_value`: templates with dollars are compiled, and the flush list's end mark has its place. */
  method CompileComplexValue(source: Text, table: seq<Text>, zero: bool)
    returns (cv: Complex, table': seq<Text>, ghost ops: seq<Op>)
    requires |table| + 2 * |source| < WORD_MAX - 1
    ensures CountVariables(source) == 0 && CountGroups(source) == 0 ==> cv == Constant(source)
    ensures CountVariables(source) > 0 || CountGroups(source) > 0 ==> !cv.Constant?
    ensures !cv.Constant? ==> (cv.Failed? <==> Parse(source).None?)
    ensures cv.Dynamic? ==>
      && Program(ops, cv.lengths, false, Put(0, 8)) && Program(ops, cv.values, true, Put(0, 8))
      && Tells(ops, Parse(source).value, table', Nul(zero)) && Known(Parse(source).value, table')
      && OpsOk(ops, |table'|) && table <= table' && |table'| <= |table| + |source|
      && FlushList(cv.flushes, Used(ops)) && (cv.flushes != null ==> fresh(cv.flushes))
  {
    hide Program, Tells, Known, Parse, Used, Nul, Put;
    var nv, nc := 0, 0;
    table', ops := table, [];
    assert source[0..] == source;
    for i := 0 to |source|
      invariant nv + CountVariables(source[i..]) == CountVariables(source)
      invariant nc + CountGroups(source[i..]) == CountGroups(source)
    {
      assert source[i..][1..] == source[i + 1..];
      if source[i] == DOLLAR {
        if i + 1 < |source| && GroupByte(source[i + 1]) {
          nc := nc + 1;
        } else {
          nv := nv + 1;
        }
      }
    }
    if nv == 0 && nc == 0 { return Constant(source), table', ops; }
    var sc := new Compiler(source, table, zero, nv);
    var ok := sc.Compile(|table| + |source|);
    if !ok { return Failed, table', ops; }
    var flushes: array?<int> := null;
    if sc.count > 0 {
      flushes := sc.flushes;
      sc.flushes[sc.count] := -1;
    }
    return Dynamic(flushes, sc.lengths, sc.values), sc.table, sc.ops;
  }

  /** A template without dollars stands for itself. */
  lemma ConstantIsItself(source: Text, table: seq<Text>, env: Env)
    requires CountVariables(source) == 0 && CountGroups(source) == 0
    ensures Parse(source).Some? && Substitute(Parse(source).value, table, env) == source
    ensures Known(Parse(source).value, table)
  {
    NoDollars(source);
    if source != [] {
      assert source[0] != DOLLAR;
      assert source[..|source|] == source && source[|source|..] == [];
      assert [Literal(source)] + [] == [Literal(source)] && [Literal(source)][1..] == [] && source + [] == source;
    }
  }
}
