/** Compiling a template into two programs: one for the length of its value, one for the bytes. */
module Script {
  import opened Bytes
  import opened Words
  import opened ScriptTemplate

  // ----- instructions -----

  /** `Capture` carries the index of the group's start in the capture vector. */
  datatype Op = Copy(data: Text) | Var(index: nat) | Capture(n: nat)

  const CODE_SIZE: nat := 16

  const WORD_MAX := 0x1_0000_0000_0000_0000

  /** The address of the instruction's function, different for the two programs and never NULL. */
  function Tag(op: Op, full: bool): nat {
    match op
    case Copy(_) => if full then 4 else 1
    case Var(_) => if full then 5 else 2
    case Capture(_) => if full then 6 else 3
  }

  function Arg(op: Op): nat {
    match op
    case Copy(d) => |d|
    case Var(i) => i
    case Capture(n) => n
  }

  function Data(op: Op): Text { if op.Copy? then op.data else [] }

  /** A copied text follows its instruction in the program of bytes only, padded to a whole word. */
  function Size(op: Op, full: bool): nat { CODE_SIZE + if full then Align8(|Data(op)|) else 0 }

  ghost predicate IsImage(op: Op, x: seq<byte>, full: bool) {
    && |x| == Size(op, full) && Arg(op) < WORD_MAX
    && x[..8] == Put(Tag(op, full), 8) && x[8..16] == Put(Arg(op), 8)
    && (full ==> CODE_SIZE + |Data(op)| <= |x| && x[CODE_SIZE..CODE_SIZE + |Data(op)|] == Data(op))
  }

  /** The bytes `b` are the instructions `ops` one after the other, and then `end`. */
  ghost predicate Program(ops: seq<Op>, b: seq<byte>, full: bool, end: seq<byte>) {
    if ops == [] then b == end
    else
      && Size(ops[0], full) <= |b| && IsImage(ops[0], b[..Size(ops[0], full)], full)
      && Program(ops[1..], b[Size(ops[0], full)..], full, end)
  }

  lemma ImageSize(op: Op, x: seq<byte>, full: bool)
    requires IsImage(op, x, full)
    ensures |x| == Size(op, full)
  {
  }

  lemma {:induction false} ProgramGrows(ops: seq<Op>, b: seq<byte>, full: bool, op: Op, x: seq<byte>)
    requires Program(ops, b, full, []) && IsImage(op, x, full)
    ensures Program(ops + [op], b + x, full, [])
  {
    hide IsImage, Size;
    if ops == [] {
      assert [] + [op] == [op] && b + x == x && [op][1..] == [];
      ImageSize(op, x, full);
      assert x[..|x|] == x && x[|x|..] == [];
    } else {
      var k := Size(ops[0], full);
      assert (ops + [op])[1..] == ops[1..] + [op];
      assert (b + x)[..k] == b[..k] && (b + x)[k..] == b[k..] + x;
      ProgramGrows(ops[1..], b[k..], full, op, x);
    }
  }

  lemma {:induction false} ProgramEnds(ops: seq<Op>, b: seq<byte>, full: bool, end: seq<byte>)
    requires Program(ops, b, full, [])
    ensures Program(ops, b + end, full, end)
  {
    hide IsImage, Size;
    if ops == [] {
      assert b + end == end;
    } else {
      var k := Size(ops[0], full);
      assert (b + end)[..k] == b[..k] && (b + end)[k..] == b[k..] + end;
      ProgramEnds(ops[1..], b[k..], full, end);
    }
  }

  // ----- meanings -----

  /** What variables and capture groups currently stand for. */
  datatype Env = Env(variable: nat -> Text, group: nat -> Text)

  function Denote(op: Op, env: Env): Text {
    match op
    case Copy(d) => d
    case Var(i) => env.variable(i)
    case Capture(n) => env.group(n)
  }

  function Denotes(ops: seq<Op>, env: Env): Text {
    if ops == [] then [] else Denote(ops[0], env) + Denotes(ops[1..], env)
  }

  lemma {:induction false} DenotesJoin(a: seq<Op>, b: seq<Op>, env: Env)
    ensures Denotes(a + b, env) == Denotes(a, env) + Denotes(b, env)
  {
    if a == [] {
      assert a + b == b && [] + Denotes(b, env) == Denotes(b, env);
    } else {
      assert (a + b)[1..] == a[1..] + b;
      DenotesJoin(a[1..], b, env);
      Assoc(Denote(a[0], env), Denotes(a[1..], env), Denotes(b, env));
    }
  }

  function LowerByte(b: byte): byte { if 0x41 <= b <= 0x5a then b + 0x20 else b }

  function Lower(s: Text): (r: Text)
    ensures |r| == |s|
  {
    seq(|s|, i requires 0 <= i < |s| => LowerByte(s[i]))
  }

  /** Two names are the same variable if they differ in the case of letters only. */
  lemma SameName(a: Text, b: Text)
    ensures Lower(a) == Lower(b) <==> |a| == |b| && forall i :: 0 <= i < |a| ==>
      || a[i] == b[i]
      || (0x41 <= a[i] <= 0x5a && b[i] == a[i] + 0x20)
      || (0x41 <= b[i] <= 0x5a && a[i] == b[i] + 0x20)
  {
    if |a| == |b| {
      forall i | 0 <= i < |a|
        ensures Lower(a)[i] == Lower(b)[i] <==>
          || a[i] == b[i]
          || (0x41 <= a[i] <= 0x5a && b[i] == a[i] + 0x20)
          || (0x41 <= b[i] <= 0x5a && a[i] == b[i] + 0x20)
      {
        assert Lower(a)[i] == LowerByte(a[i]) && Lower(b)[i] == LowerByte(b[i]);
      }
    }
  }

  /** The first variable of this name, in any case. */
  function IndexIn(table: seq<Text>, name: Text): (i: nat)
    ensures i <= |table| && (i < |table| ==> Lower(table[i]) == Lower(name))
  {
    if table == [] || Lower(table[0]) == Lower(name) then 0 else 1 + IndexIn(table[1..], name)
  }

  lemma {:induction false} IndexGrows(table: seq<Text>, name: Text, more: Text)
    ensures IndexIn(table + [more], name) ==
      if IndexIn(table, name) < |table| then IndexIn(table, name)
      else |table| + if Lower(more) == Lower(name) then 0 else 1
  {
    hide Lower;
    if table == [] {
      assert table + [more] == [more] && [more][1..] == [];
    } else {
      assert (table + [more])[1..] == table[1..] + [more];
      IndexGrows(table[1..], name, more);
    }
  }

  lemma {:induction false} IndexFirst(table: seq<Text>, name: Text, i: nat)
    requires i <= |table| && forall j :: 0 <= j < i ==> Lower(table[j]) != Lower(name)
    requires i < |table| ==> Lower(table[i]) == Lower(name)
    ensures IndexIn(table, name) == i
  {
    hide Lower;
    if i > 0 { IndexFirst(table[1..], name, i - 1); }
  }

  function Value(p: Piece, table: seq<Text>, env: Env): Text {
    match p
    case Literal(t) => t
    case Variable(n, _) => env.variable(IndexIn(table, n))
    case Group(d) => env.group(2 * d)
  }

  /** The value of a template: every piece replaced where it stands. */
  function Substitute(ps: seq<Piece>, table: seq<Text>, env: Env): Text {
    if ps == [] then []
    else Value(ps[0], table, env) + Substitute(ps[1..], table, env)
  }

  ghost predicate Known(ps: seq<Piece>, table: seq<Text>) {
    forall i :: 0 <= i < |ps| && ps[i].Variable? ==> IndexIn(table, ps[i].name) < |table|
  }

  lemma {:induction false} SubstituteJoin(ps: seq<Piece>, p: Piece, table: seq<Text>, env: Env)
    ensures Substitute(ps + [p], table, env) == Substitute(ps, table, env) + Value(p, table, env)
  {
    hide Value;
    if ps == [] {
      assert ps + [p] == [p] && [p][1..] == [];
    } else {
      assert (ps + [p])[1..] == ps[1..] + [p];
      SubstituteJoin(ps[1..], p, table, env);
      Assoc(Value(ps[0], table, env), Substitute(ps[1..], table, env), Value(p, table, env));
    }
  }

  lemma {:induction false} TableGrows(ps: seq<Piece>, table: seq<Text>, more: Text, env: Env)
    requires Known(ps, table)
    ensures Known(ps, table + [more])
    ensures Substitute(ps, table + [more], env) == Substitute(ps, table, env)
  {
    forall i | 0 <= i < |ps| && ps[i].Variable?
      ensures IndexIn(table + [more], ps[i].name) == IndexIn(table, ps[i].name) < |table|
    {
      IndexGrows(table, ps[i].name, more);
    }
    if ps != [] {
      assert forall i :: 0 <= i < |ps[1..]| ==> ps[1..][i] == ps[i + 1];
      TableGrows(ps[1..], table, more, env);
    }
  }

  /** The instructions stand for the template, and what is added to it. */
  ghost predicate Tells(ops: seq<Op>, ps: seq<Piece>, table: seq<Text>, nul: Text) {
    forall env :: Denotes(ops, env) == Substitute(ps, table, env) + nul
  }

  function Nul(zero: bool): Text { if zero then [0] else [] }

  lemma OneOp(op: Op, env: Env)
    ensures Denotes([op], env) == Denote(op, env)
  {
    assert [op][1..] == [] && Denote(op, env) + [] == Denote(op, env);
  }

  /** The next piece and its instruction, which may carry the final NUL with it. */
  lemma TellsMore(ops: seq<Op>, ps: seq<Piece>, table: seq<Text>, op: Op, p: Piece, nul: Text)
    requires Tells(ops, ps, table, [])
    requires forall env :: Denote(op, env) == Value(p, table, env) + nul
    ensures Tells(ops + [op], ps + [p], table, nul)
  {
    forall env ensures Denotes(ops + [op], env) == Substitute(ps + [p], table, env) + nul {
      DenotesJoin(ops, [op], env);
      OneOp(op, env);
      SubstituteJoin(ps, p, table, env);
      hide Denotes, Substitute, Denote, Value;
      var s := Substitute(ps, table, env);
      assert s + [] == s;
      Assoc(s, Value(p, table, env), nul);
    }
  }

  lemma TellsNul(ops: seq<Op>, ps: seq<Piece>, table: seq<Text>)
    requires Tells(ops, ps, table, [])
    ensures Tells(ops + [Copy([0])], ps, table, [0])
  {
    forall env ensures Denotes(ops + [Copy([0])], env) == Substitute(ps, table, env) + [0] {
      DenotesJoin(ops, [Copy([0])], env);
      OneOp(Copy([0]), env);
      assert Substitute(ps, table, env) + [] == Substitute(ps, table, env);
    }
  }

  lemma TellsTable(ops: seq<Op>, ps: seq<Piece>, table: seq<Text>, more: Text, nul: Text)
    requires Tells(ops, ps, table, nul) && Known(ps, table)
    ensures Tells(ops, ps, table + [more], nul) && Known(ps, table + [more])
  {
    forall env ensures Denotes(ops, env) == Substitute(ps, table + [more], env) + nul {
      TableGrows(ps, table, more, env);
    }
    TableGrows(ps, table, more, Env(_ => [], _ => []));
  }

  function UsedBy(op: Op): seq<int> { if op.Var? then [op.index] else [] }

  /** The variables the instructions use, in order. */
  function Used(ops: seq<Op>): seq<int> {
    if ops == [] then [] else UsedBy(ops[0]) + Used(ops[1..])
  }

  lemma {:induction false} UsedGrows(ops: seq<Op>, op: Op)
    ensures Used(ops + [op]) == Used(ops) + UsedBy(op)
  {
    hide UsedBy;
    if ops == [] {
      assert ops + [op] == [op] && [op][1..] == [] && UsedBy(op) + [] == UsedBy(op) == [] + UsedBy(op);
    } else {
      assert (ops + [op])[1..] == ops[1..] + [op];
      UsedGrows(ops[1..], op);
      Assoc(UsedBy(ops[0]), Used(ops[1..]), UsedBy(op));
    }
  }

  /** The instruction's variable is one of `n`, and its group starts at an even place. */
  predicate OpOk(op: Op, n: nat) {
    match op
    case Copy(_) => true
    case Var(i) => i < n
    case Capture(m) => m % 2 == 0
  }

  ghost predicate OpsOk(ops: seq<Op>, n: nat) { forall k :: 0 <= k < |ops| ==> OpOk(ops[k], n) }

  lemma OpsGrow(ops: seq<Op>, op: Op, n: nat, m: nat)
    requires OpsOk(ops, n) && n <= m && OpOk(op, m)
    ensures OpsOk(ops + [op], m)
  {
  }

  lemma {:induction false} UsedOk(ops: seq<Op>, n: nat)
    requires OpsOk(ops, n)
    ensures forall k :: 0 <= k < |Used(ops)| ==> 0 <= Used(ops)[k] < n
  {
    if ops != [] {
      assert OpOk(ops[0], n);
      assert forall k :: 0 <= k < |ops[1..]| ==> ops[1..][k] == ops[k + 1];
      UsedOk(ops[1..], n);
    }
  }

  // ----- the variables of a template are those of its instructions -----

  /** Only variable `i` stands for something. */
  function Probe(i: nat, x: Text): Env { Env(j => if j == i then x else [], n => []) }

  lemma {:induction false} UsedShows(ops: seq<Op>, i: nat)
    ensures var more := |Denotes(ops, Probe(i, [0]))| - |Denotes(ops, Probe(i, []))|;
      0 <= more && (0 < more <==> i in Used(ops))
  {
    if ops != [] { UsedShows(ops[1..], i); }
  }

  ghost predicate Mentions(ps: seq<Piece>, table: seq<Text>, i: nat) {
    exists k :: 0 <= k < |ps| && ps[k].Variable? && IndexIn(table, ps[k].name) == i
  }

  lemma MentionsStep(ps: seq<Piece>, table: seq<Text>, i: nat)
    requires ps != []
    ensures Mentions(ps, table, i) <==>
      (ps[0].Variable? && IndexIn(table, ps[0].name) == i) || Mentions(ps[1..], table, i)
  {
    hide IndexIn;
    if Mentions(ps[1..], table, i) {
      var k :| 0 <= k < |ps[1..]| && ps[1..][k].Variable? && IndexIn(table, ps[1..][k].name) == i;
      assert ps[k + 1] == ps[1..][k];
    }
    if Mentions(ps, table, i) {
      var k :| 0 <= k < |ps| && ps[k].Variable? && IndexIn(table, ps[k].name) == i;
      assert k > 0 ==> ps[k] == ps[1..][k - 1];
    }
  }

  lemma {:induction false} MentionShows(ps: seq<Piece>, table: seq<Text>, i: nat)
    ensures var more := |Substitute(ps, table, Probe(i, [0]))| - |Substitute(ps, table, Probe(i, []))|;
      0 <= more && (0 < more <==> Mentions(ps, table, i))
  {
    hide IndexIn;
    if ps != [] {
      MentionShows(ps[1..], table, i);
      MentionsStep(ps, table, i);
      hide Mentions;
    }
  }

  lemma SameVariables(ops: seq<Op>, ps: seq<Piece>, table: seq<Text>, nul: Text, i: nat)
    requires Tells(ops, ps, table, nul)
    ensures i in Used(ops) <==> Mentions(ps, table, i)
  {
    UsedShows(ops, i);
    MentionShows(ps, table, i);
    hide Denotes, Substitute, Mentions, Used;
    assert Denotes(ops, Probe(i, [0])) == Substitute(ps, table, Probe(i, [0])) + nul;
    assert Denotes(ops, Probe(i, [])) == Substitute(ps, table, Probe(i, [])) + nul;
  }

  // ----- piece by piece -----

  function Values(ps: seq<Piece>, table: seq<Text>, env: Env): (r: seq<Text>)
    ensures |r| == |ps| && forall k :: 0 <= k < |ps| ==> r[k] == Value(ps[k], table, env)
  {
    seq(|ps|, k requires 0 <= k < |ps| => Value(ps[k], table, env))
  }

  lemma {:induction false} ValuesJoined(ps: seq<Piece>, table: seq<Text>, env: Env)
    ensures Substitute(ps, table, env) == Flatten(Values(ps, table, env))
  {
    if ps != [] {
      ValuesJoined(ps[1..], table, env);
      assert Values(ps, table, env)[1..] == Values(ps[1..], table, env);
    }
  }
}
