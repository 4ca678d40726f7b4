/**
 * Running a compiled template: the first program adds up the length, the second fills a buffer of
 * exactly that length. Evaluating a variable may give anything, and something else each time; it
 * changes no other variable's slot and no capture.
 */
module ScriptEngine {
  import opened Bytes
  import opened Words
  import opened ScriptTemplate
  import opened Script
  import opened ScriptCompiler
  import opened Options

  datatype Slot = Slot(valid: bool, notFound: bool, noCacheable: bool, text: Text)

  /** What a variable's handler may answer: a value, that there is none, or that it failed. */
  datatype Answer = Value(text: Text) | NotFound | Failure

  predicate Cached(s: Slot) { s.valid || s.notFound }

  /** The slot after its handler answered. */
  function Stored(s: Slot, a: Answer, flag: bool): Slot {
    match a
    case Value(t) => Slot(true, false, flag, t)
    case NotFound => s.(notFound := true, noCacheable := s.noCacheable || flag)
    case Failure => s.(valid := false, notFound := true)
  }

  /** What a variable contributes: nothing if it is unknown, not found, or cannot be evaluated. */
  function Shown(slots: seq<Slot>, i: nat): Text {
    if i < |slots| && slots[i].valid && !slots[i].notFound then slots[i].text else []
  }

  /** Evaluating `i` again will not change anything. */
  predicate Settled(slots: seq<Slot>, depth: nat, i: nat) {
    i >= |slots| || Cached(slots[i]) || depth == 0
  }

  ghost predicate AllSettled(slots: seq<Slot>, depth: nat, ops: seq<Op>) {
    forall k :: 0 <= k < |ops| && ops[k].Var? ==> Settled(slots, depth, ops[k].index)
  }

  /** Evaluations only fill slots that held nothing. */
  ghost predicate Fills(before: seq<Slot>, after: seq<Slot>, depth: nat) {
    && |after| == |before| && (depth == 0 ==> after == before)
    && forall i :: 0 <= i < |before| && Cached(before[i]) ==> after[i] == before[i]
  }

  /** The capture vector holds start and end of each group, -1 for a group that took no part. */
  ghost predicate CapturesOk(captures: seq<int>, data: Text) {
    && |captures| % 2 == 0
    && forall n :: 0 <= n < |captures| && n % 2 == 0 ==>
        || captures[n] == captures[n + 1] == -1
        || 0 <= captures[n] <= captures[n + 1] <= |data|
  }

  function GroupText(captures: seq<int>, data: Text, n: nat): Text {
    if n + 1 < |captures| && 0 <= captures[n] <= captures[n + 1] <= |data| then data[captures[n]..captures[n + 1]]
    else []
  }

  function EnvOf(slots: seq<Slot>, captures: seq<int>, data: Text): Env {
    Env(i => Shown(slots, i), n => GroupText(captures, data, n))
  }

  // ----- what filling slots leaves alone -----

  lemma StillSettled(before: seq<Slot>, after: seq<Slot>, depth: nat, i: nat)
    requires Fills(before, after, depth) && Settled(before, depth, i)
    ensures Settled(after, depth, i) && Shown(after, i) == Shown(before, i)
  {
  }

  lemma {:induction false} StillDenotes(ops: seq<Op>, before: seq<Slot>, after: seq<Slot>, depth: nat,
                                        captures: seq<int>, data: Text)
    requires Fills(before, after, depth) && AllSettled(before, depth, ops)
    ensures AllSettled(after, depth, ops)
    ensures Denotes(ops, EnvOf(after, captures, data)) == Denotes(ops, EnvOf(before, captures, data))
  {
    if ops != [] {
      assert forall k :: 0 <= k < |ops[1..]| ==> ops[1..][k] == ops[k + 1];
      if ops[0].Var? { StillSettled(before, after, depth, ops[0].index); }
      StillDenotes(ops[1..], before, after, depth, captures, data);
      assert ops == [ops[0]] + ops[1..];
    }
  }

  // ----- reading programs -----

  /** The words at the instruction pointer, and where the next instruction is. */
  lemma Fetch(ops: seq<Op>, b: seq<byte>, full: bool)
    requires Program(ops, b, full, Put(0, 8))
    ensures |b| >= 8 && (Get(b[..8]) == 0 <==> ops == [])
    ensures ops != [] ==>
      && |b| >= CODE_SIZE == 16 && Get(b[..8]) == Tag(ops[0], full) && Get(b[8..16]) == Arg(ops[0])
      && Size(ops[0], full) <= |b| && Program(ops[1..], b[Size(ops[0], full)..], full, Put(0, 8))
      && (full ==> CODE_SIZE + |Data(ops[0])| <= |b| && b[CODE_SIZE..CODE_SIZE + |Data(ops[0])|] == Data(ops[0]))
  {
    WordLimits();
    hide Put, Get, Limit;
    if ops == [] {
      GetPut(0, 8);
      assert b[..8] == b;
    } else {
      var x := b[..Size(ops[0], full)];
      assert b[..8] == x[..8] && b[8..16] == x[8..16];
      GetPut(Tag(ops[0], full), 8);
      GetPut(Arg(ops[0]), 8);
      if full { assert x[CODE_SIZE..CODE_SIZE + |Data(ops[0])|] == b[CODE_SIZE..CODE_SIZE + |Data(ops[0])|]; }
    }
  }

  /** The program from `ip` on is that of the instructions still to be run. */
  ghost predicate At(program: seq<byte>, ip: nat, ops: seq<Op>, full: bool) {
    ip <= |program| && Program(ops, program[ip..], full, Put(0, 8))
  }

  lemma FetchAt(program: seq<byte>, ip: nat, ops: seq<Op>, full: bool)
    requires At(program, ip, ops, full)
    ensures ip + 8 <= |program| && (Get(program[ip..ip + 8]) == 0 <==> ops == [])
    ensures ops != [] ==>
      && ip + 16 <= |program| && CODE_SIZE == 16
      && Get(program[ip..ip + 8]) == Tag(ops[0], full) && Get(program[ip + 8..ip + 16]) == Arg(ops[0])
      && At(program, ip + Size(ops[0], full), ops[1..], full)
      && (full ==> ip + 16 + |Data(ops[0])| <= |program|
                   && program[ip + 16..ip + 16 + |Data(ops[0])|] == Data(ops[0]))
  {
    hide Program, Get, Tag, Arg, Size, Put;
    var b := program[ip..];
    Fetch(ops, b, full);
    assert b[..8] == program[ip..ip + 8];
    if ops != [] {
      assert b[8..16] == program[ip + 8..ip + 16];
      assert b[Size(ops[0], full)..] == program[ip + Size(ops[0], full)..];
      if full { assert b[16..16 + |Data(ops[0])|] == program[ip + 16..ip + 16 + |Data(ops[0])|]; }
    }
  }

  // ----- how often variables are evaluated -----

  /** What asking for variable `i` does to the slots, with `c` handler calls before and `c'` after. */
  ghost predicate Asked(before: seq<Slot>, after: seq<Slot>, depth: nat, i: nat,
                        handlers: (nat, nat) -> Answer, flags: nat -> bool, c: nat, c': nat) {
    if Settled(before, depth, i) then after == before && c' == c
    else after == before[i := Stored(before[i], handlers(i, c), flags(i))] && c' == c + 1
  }

  /** The variables the instructions use whose slots hold nothing. */
  function Unevaluated(slots: seq<Slot>, ops: seq<Op>): (r: set<nat>)
    ensures forall i: nat :: i in r <==> i < |slots| && !Cached(slots[i]) && i in Used(ops)
  {
    set i: nat | 0 <= i < |slots| && !Cached(slots[i]) && i in Used(ops)
  }

  /** Different variables were evaluated by different calls, all of them from `c0` up to `c1`. */
  ghost predicate OwnCalls(asked: map<nat, nat>, c0: nat, c1: nat) {
    && (forall i :: i in asked ==> c0 <= asked[i] < c1)
    && forall i, j :: i in asked && j in asked && i != j ==> asked[i] != asked[j]
  }

  /**
   * Each variable that held nothing was evaluated once, by the call that `asked` names for it, and
   * nothing else happened to the slots.
   */
  ghost predicate Evaluated(start: seq<Slot>, after: seq<Slot>, ops: seq<Op>, depth: nat,
                            handlers: (nat, nat) -> Answer, flags: nat -> bool, c0: nat, c1: nat,
                            asked: map<nat, nat>) {
    && |after| == |start| && asked.Keys == (if depth == 0 then {} else Unevaluated(start, ops))
    && c1 == c0 + |asked| && OwnCalls(asked, c0, c1)
    && (forall i :: i in asked ==> after[i] == Stored(start[i], handlers(i, asked[i]), flags(i)))
    && forall i :: 0 <= i < |start| && i !in asked ==> after[i] == start[i]
  }

  lemma {:induction false} UsedBySome(ops: seq<Op>, i: nat) returns (k: nat)
    requires i in Used(ops)
    ensures k < |ops| && ops[k] == Var(i)
  {
    if i in UsedBy(ops[0]) {
      k := 0;
    } else {
      k := UsedBySome(ops[1..], i);
      k := k + 1;
    }
  }

  lemma OneMoreCall(asked: map<nat, nat>, c0: nat, c: nat, i: nat)
    requires OwnCalls(asked, c0, c) && c0 <= c && i !in asked
    ensures OwnCalls(asked[i := c], c0, c + 1) && asked[i := c].Keys == asked.Keys + {i}
    ensures |asked[i := c]| == |asked| + 1
  {
    assert asked[i := c].Keys == asked.Keys + {i};
  }

  lemma NothingEvaluated(slots: seq<Slot>, depth: nat, handlers: (nat, nat) -> Answer, flags: nat -> bool, c: nat)
    ensures Evaluated(slots, slots, [], depth, handlers, flags, c, c, map[])
  {
    assert Unevaluated(slots, []) == {};
  }

  /** An instruction whose variable is settled adds no variable to evaluate. */
  lemma NoneAdded(start: seq<Slot>, before: seq<Slot>, done: seq<Op>, op: Op, depth: nat,
                  handlers: (nat, nat) -> Answer, flags: nat -> bool, c0: nat, c: nat, asked: map<nat, nat>)
    requires Evaluated(start, before, done, depth, handlers, flags, c0, c, asked)
    requires op.Var? ==> Settled(before, depth, op.index)
    ensures Unevaluated(start, done) <= Unevaluated(start, done + [op])
    ensures depth > 0 ==> Unevaluated(start, done + [op]) == Unevaluated(start, done)
  {
    UsedGrows(done, op);
  }

  /** One that is not adds exactly its own, which was as it was at the start. */
  lemma OneAdded(start: seq<Slot>, before: seq<Slot>, done: seq<Op>, i: nat, depth: nat,
                 handlers: (nat, nat) -> Answer, flags: nat -> bool, c0: nat, c: nat, asked: map<nat, nat>)
    requires Evaluated(start, before, done, depth, handlers, flags, c0, c, asked)
    requires Fills(start, before, depth) && AllSettled(before, depth, done) && !Settled(before, depth, i)
    ensures i < |start| && before[i] == start[i] && i !in Unevaluated(start, done)
    ensures Unevaluated(start, done + [Var(i)]) == Unevaluated(start, done) + {i}
  {
    UsedGrows(done, Var(i));
    if i in Used(done) {
      var k := UsedBySome(done, i);
      assert false;
    }
  }

  lemma OneEvaluated(start: seq<Slot>, before: seq<Slot>, done: seq<Op>, i: nat, depth: nat,
                     handlers: (nat, nat) -> Answer, flags: nat -> bool, c0: nat, c: nat, asked: map<nat, nat>)
    requires Evaluated(start, before, done, depth, handlers, flags, c0, c, asked)
    requires 0 < depth && i < |start| && before[i] == start[i] && i !in Unevaluated(start, done)
    requires Unevaluated(start, done + [Var(i)]) == Unevaluated(start, done) + {i}
    ensures Evaluated(start, before[i := Stored(before[i], handlers(i, c), flags(i))], done + [Var(i)], depth,
                      handlers, flags, c0, c + 1, asked[i := c])
  {
    hide Unevaluated, Stored, OwnCalls;
    OneMoreCall(asked, c0, c, i);
    var after, asked' := before[i := Stored(before[i], handlers(i, c), flags(i))], asked[i := c];
    forall j | j in asked' ensures j < |start| && after[j] == Stored(start[j], handlers(j, asked'[j]), flags(j)) {
      if j != i { assert j in asked; }
    }
    forall j | 0 <= j < |start| && j !in asked' ensures after[j] == start[j] {
      assert j !in asked;
    }
  }

  lemma EvaluatedStep(start: seq<Slot>, before: seq<Slot>, after: seq<Slot>, done: seq<Op>, op: Op, depth: nat,
                      handlers: (nat, nat) -> Answer, flags: nat -> bool, c0: nat, c: nat, c': nat,
                      asked: map<nat, nat>) returns (asked': map<nat, nat>)
    requires Evaluated(start, before, done, depth, handlers, flags, c0, c, asked)
    requires Fills(start, before, depth) && AllSettled(before, depth, done)
    requires if op.Var? then Asked(before, after, depth, op.index, handlers, flags, c, c')
             else after == before && c' == c
    ensures Evaluated(start, after, done + [op], depth, handlers, flags, c0, c', asked')
  {
    asked' := asked;
    if op.Var? && !Settled(before, depth, op.index) {
      OneAdded(start, before, done, op.index, depth, handlers, flags, c0, c, asked);
      asked' := asked[op.index := c];
      assert depth > 0 && op == Var(op.index);
      hide Unevaluated, Fills, AllSettled, Stored, Evaluated;
      OneEvaluated(start, before, done, op.index, depth, handlers, flags, c0, c, asked);
    } else {
      NoneAdded(start, before, done, op, depth, handlers, flags, c0, c, asked);
      hide Unevaluated, Fills, AllSettled, Stored;
    }
  }

  /** The variables of a value that have to be evaluated: those not cached, or not to be. */
  function ToEvaluate(slots: seq<Slot>, ops: seq<Op>): (r: set<nat>)
    ensures forall i: nat :: i in r <==>
      i < |slots| && i in Used(ops) && (!Cached(slots[i]) || slots[i].noCacheable)
  {
    set i: nat | 0 <= i < |slots| && i in Used(ops) && (!Cached(slots[i]) || slots[i].noCacheable)
  }

  function Emptied(s: Slot): Slot { s.(valid := false, notFound := false) }

  ghost predicate Flushed(before: seq<Slot>, after: seq<Slot>, used: seq<int>) {
    && |after| == |before|
    && forall i :: 0 <= i < |before| ==>
        after[i] == if i in used && before[i].noCacheable then Emptied(before[i]) else before[i]
  }

  /**
   * The length pass seen from before the flush: each variable to evaluate holds its handler's
   * answer, and all others are as they were.
   */
  lemma EachOnce(before: seq<Slot>, flushed: seq<Slot>, after: seq<Slot>, ops: seq<Op>, depth: nat,
                 handlers: (nat, nat) -> Answer, flags: nat -> bool, c0: nat, c1: nat, asked: map<nat, nat>)
    requires Flushed(before, flushed, Used(ops))
    requires Evaluated(flushed, after, ops, depth, handlers, flags, c0, c1, asked)
    ensures |after| == |before| && c1 == c0 + |asked| && OwnCalls(asked, c0, c1)
    ensures asked.Keys == if depth == 0 then {} else ToEvaluate(before, ops)
    ensures forall i :: i in asked ==>
      i < |before| && after[i] == Stored(Emptied(before[i]), handlers(i, asked[i]), flags(i))
    ensures forall i :: 0 <= i < |before| && i !in ToEvaluate(before, ops) ==> after[i] == before[i]
    ensures depth == 0 ==> forall i :: i in ToEvaluate(before, ops) ==> after[i] == Emptied(before[i])
  {
    assert Unevaluated(flushed, ops) == ToEvaluate(before, ops);
    forall i | i in ToEvaluate(before, ops) ensures flushed[i] == Emptied(before[i]) {
      var k := UsedBySome(ops, i);
    }
  }

  lemma FlushKeepsOk(before: seq<Slot>, after: seq<Slot>, used: seq<int>, ops: seq<Op>)
    requires Flushed(before, after, used) && OpsOk(ops, |before|)
    ensures |after| == |before| && OpsOk(ops, |after|)
  {
  }

  lemma SameLength(start: seq<Slot>, after: seq<Slot>, ops: seq<Op>, depth: nat,
                   handlers: (nat, nat) -> Answer, flags: nat -> bool, c0: nat, c1: nat, asked: map<nat, nat>)
    requires Evaluated(start, after, ops, depth, handlers, flags, c0, c1, asked)
    ensures |after| == |start|
  {
  }

  lemma AtStart(program: seq<byte>, ops: seq<Op>, full: bool)
    requires Program(ops, program, full, Put(0, 8))
    ensures At(program, 0, ops, full)
  {
    assert program[0..] == program;
  }

  lemma Joined(done: seq<Op>, rest: seq<Op>, env: Env)
    requires rest != []
    ensures done + rest == done + [rest[0]] + rest[1..]
    ensures Denotes(done + [rest[0]], env) == Denotes(done, env) + Denotes([rest[0]], env)
    ensures |Denotes(done, env)| + |Denotes([rest[0]], env)| <= |Denotes(done + rest, env)|
  {
    hide Denotes;
    assert done + rest == done + [rest[0]] + rest[1..];
    DenotesJoin(done, [rest[0]], env);
    DenotesJoin(done + [rest[0]], rest[1..], env);
  }

  /** The text of the next instruction fits into what is left of the buffer. */
  lemma FillStep(ops: seq<Op>, done: seq<Op>, rest: seq<Op>, slots: seq<Slot>, depth: nat,
                 captures: seq<int>, data: Text)
    requires rest != [] && ops == done + rest && AllSettled(slots, depth, ops) && OpsOk(ops, |slots|)
    ensures ops == done + [rest[0]] + rest[1..]
    ensures rest[0].Var? ==> Settled(slots, depth, rest[0].index)
    ensures rest[0].Capture? ==> rest[0].n % 2 == 0
    ensures var env := EnvOf(slots, captures, data);
      && Denotes(done + [rest[0]], env) == Denotes(done, env) + Denote(rest[0], env)
      && |Denotes(done, env)| + |Denote(rest[0], env)| <= |Denotes(ops, env)|
      && (rest[0].Copy? ==> Denote(rest[0], env) == rest[0].data)
      && (rest[0].Var? ==> Denote(rest[0], env) == Shown(slots, rest[0].index))
      && (rest[0].Capture? ==> Denote(rest[0], env) == GroupText(captures, data, rest[0].n))
      && (rest[0].Capture? && rest[0].n >= |captures| ==> Denote(rest[0], env) == [])
      && forall t: Text :: t == [] ==> Denotes(done, env) + t == Denotes(done, env)
  {
    hide Denotes;
    var env := EnvOf(slots, captures, data);
    assert OpOk(ops[|done|], |slots|);
    Joined(done, rest, env);
    OneOp(rest[0], env);
  }

  lemma NothingAsked(before: seq<Slot>, after: seq<Slot>, depth: nat, i: nat,
                     handlers: (nat, nat) -> Answer, flags: nat -> bool, c: nat, c': nat)
    requires Asked(before, after, depth, i, handlers, flags, c, c') && Settled(before, depth, i)
    ensures after == before && c' == c
  {
  }

  lemma GroupBounds(captures: seq<int>, data: Text, n: nat)
    requires CapturesOk(captures, data) && n < |captures| && n % 2 == 0
    ensures n + 1 < |captures| && |GroupText(captures, data, n)| == captures[n + 1] - captures[n]
  {
  }

  lemma PassBegin(ops: seq<Op>, slots: seq<Slot>, depth: nat, env: Env)
    ensures [] + ops == ops && Fills(slots, slots, depth) && AllSettled(slots, depth, []) && Denotes([], env) == []
  {
  }

  lemma Unfilled(slots: seq<Slot>, depth: nat)
    ensures Fills(slots, slots, depth)
  {
  }

  lemma PassEnd(done: seq<Op>, rest: seq<Op>)
    requires rest == []
    ensures done + rest == done
  {
  }

  lemma Codes(op: Op, full: bool)
    ensures Tag(op, false) == (if op.Copy? then 1 else if op.Var? then 2 else 3)
    ensures Tag(op, true) == (if op.Copy? then 4 else if op.Var? then 5 else 6)
    ensures op.Copy? ==> Arg(op) == |op.data| && Data(op) == op.data
    ensures op.Var? ==> Arg(op) == op.index
    ensures op.Capture? ==> Arg(op) == op.n
    ensures Size(op, false) == 16 && Size(op, true) == 16 + if op.Copy? then Align8(|Data(op)|) else 0
  {
  }

  lemma GroupEven(ops: seq<Op>, done: seq<Op>, rest: seq<Op>, n: nat)
    requires OpsOk(ops, n) && ops == done + rest && rest != [] && rest[0].Capture?
    ensures rest[0].n % 2 == 0
  {
    assert OpOk(ops[|done|], n);
  }

  /** After one instruction, which evaluated at most its own variable. */
  lemma FillsTwice(start: seq<Slot>, before: seq<Slot>, after: seq<Slot>, depth: nat)
    requires Fills(start, before, depth) && Fills(before, after, depth)
    ensures Fills(start, after, depth)
  {
  }

  lemma SettledMore(before: seq<Slot>, after: seq<Slot>, depth: nat, done: seq<Op>, op: Op)
    requires Fills(before, after, depth) && AllSettled(before, depth, done)
    requires op.Var? ==> Settled(after, depth, op.index)
    ensures AllSettled(after, depth, done + [op])
  {
  }

  lemma PassStep(ops: seq<Op>, done: seq<Op>, rest: seq<Op>, start: seq<Slot>, before: seq<Slot>, after: seq<Slot>,
                 depth: nat, captures: seq<int>, data: Text)
    requires rest != [] && ops == done + rest
    requires Fills(start, before, depth) && Fills(before, after, depth) && AllSettled(before, depth, done)
    requires rest[0].Var? ==> Settled(after, depth, rest[0].index)
    ensures ops == done + [rest[0]] + rest[1..]
    ensures Fills(start, after, depth) && AllSettled(after, depth, done + [rest[0]])
    ensures Denotes(done + [rest[0]], EnvOf(after, captures, data)) ==
            Denotes(done, EnvOf(before, captures, data)) + Denote(rest[0], EnvOf(after, captures, data))
    ensures var text := Denote(rest[0], EnvOf(after, captures, data));
      && (rest[0].Copy? ==> text == rest[0].data)
      && (rest[0].Var? ==> text == Shown(after, rest[0].index))
      && (rest[0].Capture? ==> text == GroupText(captures, data, rest[0].n))
  {
    hide AllSettled, Fills, Settled, Denotes;
    FillsTwice(start, before, after, depth);
    SettledMore(before, after, depth, done, rest[0]);
    assert ops == done + [rest[0]] + rest[1..];
    StillDenotes(done, before, after, depth, captures, data);
    DenotesJoin(done, [rest[0]], EnvOf(after, captures, data));
    OneOp(rest[0], EnvOf(after, captures, data));
  }

  /** What each instruction contributes. */
  function Parts(ops: seq<Op>, env: Env): (r: seq<Text>)
    ensures |r| == |ops| && forall k :: 0 <= k < |ops| ==> r[k] == Denote(ops[k], env)
  {
    seq(|ops|, k requires 0 <= k < |ops| => Denote(ops[k], env))
  }

  lemma {:induction false} PartsJoined(ops: seq<Op>, env: Env)
    ensures Denotes(ops, env) == Flatten(Parts(ops, env))
  {
    if ops != [] {
      PartsJoined(ops[1..], env);
      assert Parts(ops, env)[1..] == Parts(ops[1..], env);
    }
  }

  lemma PartsAre(ops: seq<Op>, before: seq<Slot>, after: seq<Slot>, depth: nat, captures: seq<int>, data: Text,
                 handlers: (nat, nat) -> Answer, flags: nat -> bool, asked: map<nat, nat>)
    requires OpsOk(ops, |before|) && |after| == |before|
    requires asked.Keys == if depth == 0 then {} else ToEvaluate(before, ops)
    requires forall i :: i in asked ==>
      i < |before| && after[i] == Stored(Emptied(before[i]), handlers(i, asked[i]), flags(i))
    requires forall i :: 0 <= i < |before| && i !in ToEvaluate(before, ops) ==> after[i] == before[i]
    requires depth == 0 ==> forall i :: i in ToEvaluate(before, ops) ==> after[i] == Emptied(before[i])
    ensures var parts := Parts(ops, EnvOf(after, captures, data));
      |parts| == |ops| && Denotes(ops, EnvOf(after, captures, data)) == Flatten(parts)
    ensures var parts := Parts(ops, EnvOf(after, captures, data));
      && (forall k :: 0 <= k < |ops| && ops[k].Copy? ==> parts[k] == ops[k].data)
      && (forall k :: 0 <= k < |ops| && ops[k].Var? ==>
            var i := ops[k].index;
            && i < |before|
            && parts[k] ==
               if i in asked then if handlers(i, asked[i]).Value? then handlers(i, asked[i]).text else []
               else if i in ToEvaluate(before, ops) || !before[i].valid || before[i].notFound then []
               else before[i].text)
      && (forall k :: 0 <= k < |ops| && ops[k].Capture? ==>
            var n := ops[k].n;
            parts[k] ==
            if n + 1 < |captures| && 0 <= captures[n] <= captures[n + 1] <= |data|
            then data[captures[n]..captures[n + 1]] else [])
  {
    var env := EnvOf(after, captures, data);
    PartsJoined(ops, env);
    hide Denotes, ToEvaluate;
    forall k | 0 <= k < |ops| ensures OpOk(ops[k], |before|) {}
  }

  class Session {
    var slots: seq<Slot>
    var calls: nat
    const handlers: (nat, nat) -> Answer
    const flags: nat -> bool
    const depth: nat
    const captures: seq<int>
    const data: Text

    /** `handlers(i, n)` is what the handler of variable `i` answers if it is the n-th call of all. */
    constructor (slots: seq<Slot>, handlers: (nat, nat) -> Answer, flags: nat -> bool, depth: nat,
                 captures: seq<int>, data: Text)
      requires CapturesOk(captures, data)
      ensures this.slots == slots && this.captures == captures && this.data == data && this.depth == depth
      ensures this.handlers == handlers && this.flags == flags && calls == 0
    {
      this.slots, this.handlers, this.flags, this.depth := slots, handlers, flags, depth;
      this.captures, this.data, calls := captures, data, 0;
    }

    /** `get_indexed_variable`: the cached slot, or the handler's answer, kept. */
    method GetIndexed(i: nat) returns (v: Option<Slot>)
      modifies this`slots, this`calls
      ensures Asked(old(slots), slots, depth, i, handlers, flags, old(calls), calls)
      ensures Fills(old(slots), slots, depth) && Settled(slots, depth, i)
      ensures v.Some? ==> i < |slots| && v.value == slots[i]
      ensures i < |slots| && (old(slots)[i].valid || old(slots)[i].notFound) ==>
        v == Some(old(slots)[i]) && slots == old(slots) && calls == old(calls)
      ensures i < |slots| && !old(slots)[i].valid && !old(slots)[i].notFound && depth > 0 ==>
        && calls == old(calls) + 1
        && match handlers(i, old(calls))
           case Value(t) => v == Some(slots[i]) && slots[i] == Slot(true, false, flags(i), t)
           case NotFound => v == Some(slots[i]) && slots[i].notFound
           case Failure => v == None && !slots[i].valid && slots[i].notFound
      ensures (if v.Some? && !v.value.notFound then v.value.text else []) == Shown(slots, i)
    {
      if i >= |slots| { return None; }
      if slots[i].notFound || slots[i].valid { return Some(slots[i]); }
      if depth == 0 { return None; }
      var answer := handlers(i, calls);
      calls := calls + 1;
      if answer == Failure {
        slots := slots[i := slots[i].(valid := false, notFound := true)];
        return None;
      }
      slots := slots[i := Stored(slots[i], answer, flags(i))];
      return Some(slots[i]);
    }

    /** `flush_complex_value`: the slots of the value's variables that must not be cached are emptied. */
    method Flush(flushes: array?<int>, ghost used: seq<int>)
      requires FlushList(flushes, used) && forall k :: 0 <= k < |used| ==> 0 <= used[k] < |slots|
      modifies this`slots
      ensures Flushed(old(slots), slots, used)
    {
      if flushes == null { return; }
      var n := 0;
      assert forall k :: 0 <= k < |used| ==> flushes[k] == flushes[..|used|][k];
      while flushes[n] != -1
        invariant n <= |used| && Flushed(old(slots), slots, used[..n])
        decreases |used| - n
      {
        var i := flushes[n];
        assert used[..n + 1] == used[..n] + [i];
        if slots[i].noCacheable {
          slots := slots[i := slots[i].(valid := false, notFound := false)];
        }
        n := n + 1;
      }
      assert used[..n] == used;
    }

    /** The length of a group: the difference of its ends. */
    method GroupLen(n: nat) returns (len: nat)
      requires CapturesOk(captures, data) && n % 2 == 0
      ensures len == |GroupText(captures, data, n)|
    {
      if n < |captures| { return captures[n + 1] - captures[n]; }
      len := 0;
    }

    /** The first pass: every variable used is settled, and the lengths are added up. */
    method Length(lengths: seq<byte>, ghost ops: seq<Op>) returns (len: nat, ghost asked: map<nat, nat>)
      requires At(lengths, 0, ops, false) && OpsOk(ops, |slots|) && CapturesOk(captures, data)
      modifies this`slots, this`calls
      ensures Fills(old(slots), slots, depth) && AllSettled(slots, depth, ops)
      ensures len == |Denotes(ops, EnvOf(slots, captures, data))|
      ensures Evaluated(old(slots), slots, ops, depth, handlers, flags, old(calls), calls, asked)
    {
      hide *;
      len, asked := 0, map[];
      var ip := 0;
      ghost var done, rest: seq<Op> := [], ops;
      PassBegin(ops, slots, depth, EnvOf(slots, captures, data));
      NothingEvaluated(slots, depth, handlers, flags, calls);
      FetchAt(lengths, ip, rest, false);
      while Get(lengths[ip..ip + 8]) != 0
        invariant ip + 8 <= |lengths| && (Get(lengths[ip..ip + 8]) == 0 <==> rest == [])
        invariant At(lengths, ip, rest, false) && ops == done + rest
        invariant Fills(old(slots), slots, depth) && AllSettled(slots, depth, done)
        invariant len == |Denotes(done, EnvOf(slots, captures, data))|
        invariant Evaluated(old(slots), slots, done, depth, handlers, flags, old(calls), calls, asked)
        decreases |rest|
      {
        FetchAt(lengths, ip, rest, false);
        Codes(rest[0], false);
        ghost var before, c := slots, calls;
        Unfilled(slots, depth);
        var code, arg := Get(lengths[ip..ip + 8]), Get(lengths[ip + 8..ip + 16]);
        var more := 0;
        if code == 1 {
          more := arg;
        } else if code == 2 {
          var v := GetIndexed(arg);
          if v.Some? && !v.value.notFound { more := |v.value.text|; }
        } else {
          GroupEven(ops, done, rest, |old(slots)|);
          more := GroupLen(arg);
        }
        asked :=
          EvaluatedStep(old(slots), before, slots, done, rest[0], depth, handlers, flags, old(calls), c, calls, asked);
        PassStep(ops, done, rest, old(slots), before, slots, depth, captures, data);
        len := len + more;
        ip := ip + 16;
        done, rest := done + [rest[0]], rest[1..];
        FetchAt(lengths, ip, rest, false);
      }
      PassEnd(done, rest);
    }

    /** The second pass: with every variable settled it fills the buffer to its last byte. */
    method Fill(values: seq<byte>, buf: array<byte>, ghost ops: seq<Op>)
      requires At(values, 0, ops, true) && OpsOk(ops, |slots|) && CapturesOk(captures, data)
      requires AllSettled(slots, depth, ops) && buf.Length == |Denotes(ops, EnvOf(slots, captures, data))|
      modifies this`slots, this`calls, buf
      ensures buf[..] == Denotes(ops, EnvOf(slots, captures, data))
      ensures slots == old(slots) && calls == old(calls)
    {
      hide *;
      var pos: nat, ip: nat := 0, 0;
      ghost var done, rest: seq<Op> := [], ops;
      ghost var env := EnvOf(slots, captures, data);
      PassBegin(ops, slots, depth, env);
      FetchAt(values, ip, rest, true);
      while Get(values[ip..ip + 8]) != 0
        invariant ip + 8 <= |values| && (Get(values[ip..ip + 8]) == 0 <==> rest == [])
        invariant At(values, ip, rest, true) && ops == done + rest
        invariant slots == old(slots) && calls == old(calls)
        invariant pos <= buf.Length && buf[..pos] == Denotes(done, env)
        decreases |rest|
      {
        FetchAt(values, ip, rest, true);
        Codes(rest[0], true);
        FillStep(ops, done, rest, slots, depth, captures, data);
        var code, arg := Get(values[ip..ip + 8]), Get(values[ip + 8..ip + 16]);
        if code == 4 {
          MemCopy(buf, pos, values[ip + 16..ip + 16 + arg]);
          pos, ip := pos + arg, ip + 16 + Align8(arg);
        } else if code == 5 {
          var v := GetIndexed(arg);
          NothingAsked(old(slots), slots, depth, arg, handlers, flags, old(calls), calls);
          if v.Some? && !v.value.notFound {
            MemCopy(buf, pos, v.value.text);
            pos := pos + |v.value.text|;
          }
          ip := ip + 16;
        } else {
          if arg < |captures| {
            GroupBounds(captures, data, arg);
            MemCopy(buf, pos, GroupText(captures, data, arg));
            pos := pos + (captures[arg + 1] - captures[arg]);
          }
          ip := ip + 16;
        }
        done, rest := done + [rest[0]], rest[1..];
        FetchAt(values, ip, rest, true);
      }
      PassEnd(done, rest);
      assert pos == buf.Length && buf[..] == buf[..pos];
    }

    /**
     * `complex_value`: the value's length is what its first program adds up and what its second
     * writes. It is made of one text for each instruction: a literal, a group of the captures, or
     * what a variable contributes. A variable that may be cached and is contributes what it did
     * before; any other contributes the answer of the one handler call made for it, which `asked`
     * names, however often it occurs, and nothing if the depth is used up.
     */
    method ComplexValue(cv: Complex, ghost ops: seq<Op>)
      returns (value: array<byte>, ghost parts: seq<Text>, ghost asked: map<nat, nat>)
      requires cv.Dynamic? && OpsOk(ops, |slots|) && CapturesOk(captures, data)
      requires Program(ops, cv.lengths, false, Put(0, 8)) && Program(ops, cv.values, true, Put(0, 8))
      requires FlushList(cv.flushes, Used(ops))
      modifies this`slots, this`calls
      ensures fresh(value) && value[..] == Denotes(ops, EnvOf(slots, captures, data))
      ensures |slots| == |old(slots)|
      ensures forall i :: 0 <= i < |slots| && i !in ToEvaluate(old(slots), ops) ==> slots[i] == old(slots)[i]
      ensures forall i :: i in asked ==>
        i < |slots| && slots[i] == Stored(Emptied(old(slots)[i]), handlers(i, asked[i]), flags(i))
      ensures depth == 0 ==> forall i :: i in ToEvaluate(old(slots), ops) ==> slots[i] == Emptied(old(slots)[i])
      ensures asked.Keys == if depth == 0 then {} else ToEvaluate(old(slots), ops)
      ensures calls == old(calls) + |asked| && OwnCalls(asked, old(calls), calls)
      ensures |parts| == |ops| && value[..] == Flatten(parts)
      ensures forall k :: 0 <= k < |ops| && ops[k].Copy? ==> parts[k] == ops[k].data
      ensures forall k :: 0 <= k < |ops| && ops[k].Var? ==>
        var i := ops[k].index;
        && i < |old(slots)|
        && parts[k] ==
           if i in asked then if handlers(i, asked[i]).Value? then handlers(i, asked[i]).text else []
           else if i in ToEvaluate(old(slots), ops) || !old(slots)[i].valid || old(slots)[i].notFound then []
           else old(slots)[i].text
      ensures forall k :: 0 <= k < |ops| && ops[k].Capture? ==>
        var n := ops[k].n;
        parts[k] ==
        if n + 1 < |captures| && 0 <= captures[n] <= captures[n + 1] <= |data| then data[captures[n]..captures[n + 1]]
        else []
    {
      hide *;
      UsedOk(ops, |slots|);
      AtStart(cv.lengths, ops, false);
      AtStart(cv.values, ops, true);
      Flush(cv.flushes, Used(ops));
      FlushKeepsOk(old(slots), slots, Used(ops), ops);
      ghost var flushed := slots;
      var len;
      len, asked := Length(cv.lengths, ops);
      SameLength(flushed, slots, ops, depth, handlers, flags, old(calls), calls, asked);
      EachOnce(old(slots), flushed, slots, ops, depth, handlers, flags, old(calls), calls, asked);
      value := new byte[len];
      Fill(cv.values, value, ops);
      parts := Parts(ops, EnvOf(slots, captures, data));
      PartsAre(ops, old(slots), slots, depth, captures, data, handlers, flags, asked);
    }
  }

  lemma OpsMore(ops: seq<Op>, n: nat, m: nat)
    requires OpsOk(ops, n) && n <= m
    ensures OpsOk(ops, m)
  {
    forall k | 0 <= k < |ops| ensures OpOk(ops[k], m) {
      assert OpOk(ops[k], n);
    }
  }

  lemma TellsIs(ops: seq<Op>, ps: seq<Piece>, table: seq<Text>, nul: Text, env: Env)
    requires Tells(ops, ps, table, nul)
    ensures Denotes(ops, env) == Substitute(ps, table, env) + nul
  {
  }

  /**
   * Which variables a run asks for: those the template mentions whose slots hold nothing or may not
   * stay cached.
   */
  lemma AskedFor(ops: seq<Op>, ps: seq<Piece>, table: seq<Text>, nul: Text, slots: seq<Slot>, i: nat)
    requires Tells(ops, ps, table, nul)
    ensures i in ToEvaluate(slots, ops) <==>
      && i < |slots| && ((!slots[i].valid && !slots[i].notFound) || slots[i].noCacheable)
      && exists k :: 0 <= k < |ps| && ps[k].Variable? && IndexIn(table, ps[k].name) == i
  {
    SameVariables(ops, ps, table, nul, i);
  }

  lemma AllAskedFor(ops: seq<Op>, ps: seq<Piece>, table: seq<Text>, nul: Text, slots: seq<Slot>)
    requires Tells(ops, ps, table, nul)
    ensures forall i: nat :: i in ToEvaluate(slots, ops) <==>
      && i < |slots| && ((!slots[i].valid && !slots[i].notFound) || slots[i].noCacheable)
      && exists k :: 0 <= k < |ps| && ps[k].Variable? && IndexIn(table, ps[k].name) == i
  {
    hide ToEvaluate, Tells, IndexIn;
    forall i: nat ensures i in ToEvaluate(slots, ops) <==>
      && i < |slots| && ((!slots[i].valid && !slots[i].notFound) || slots[i].noCacheable)
      && exists k :: 0 <= k < |ps| && ps[k].Variable? && IndexIn(table, ps[k].name) == i
    {
      AskedFor(ops, ps, table, nul, slots, i);
    }
  }

  lemma KnownAt(ps: seq<Piece>, table: seq<Text>, k: nat)
    requires Known(ps, table) && k < |ps| && ps[k].Variable?
    ensures IndexIn(table, ps[k].name) < |table|
  {
  }

  /** What each piece of the template contributes. */
  lemma PiecesAre(ops: seq<Op>, ps: seq<Piece>, table: seq<Text>, nul: Text, before: seq<Slot>, after: seq<Slot>,
                  depth: nat, captures: seq<int>, data: Text,
                  handlers: (nat, nat) -> Answer, flags: nat -> bool, asked: map<nat, nat>)
    requires Tells(ops, ps, table, nul) && Known(ps, table) && |after| == |before| >= |table|
    requires asked.Keys == if depth == 0 then {} else ToEvaluate(before, ops)
    requires forall i :: i in asked ==>
      i < |before| && after[i] == Stored(Emptied(before[i]), handlers(i, asked[i]), flags(i))
    requires forall i :: 0 <= i < |before| && i !in ToEvaluate(before, ops) ==> after[i] == before[i]
    requires depth == 0 ==> forall i :: i in ToEvaluate(before, ops) ==> after[i] == Emptied(before[i])
    ensures var parts := Values(ps, table, EnvOf(after, captures, data));
      |parts| == |ps| && Denotes(ops, EnvOf(after, captures, data)) == Flatten(parts) + nul
    ensures var parts := Values(ps, table, EnvOf(after, captures, data));
      && (forall k :: 0 <= k < |ps| && ps[k].Literal? ==> parts[k] == ps[k].text)
      && (forall k :: 0 <= k < |ps| && ps[k].Variable? ==>
            var i := IndexIn(table, ps[k].name);
            && i < |table| && i < |before|
            && parts[k] ==
               if i in asked then if handlers(i, asked[i]).Value? then handlers(i, asked[i]).text else []
               else if !before[i].valid || before[i].notFound || (before[i].noCacheable && depth == 0) then []
               else before[i].text)
      && (forall k :: 0 <= k < |ps| && ps[k].Group? ==>
            var n := 2 * ps[k].digit;
            parts[k] ==
            if n + 1 < |captures| && 0 <= captures[n] <= captures[n + 1] <= |data|
            then data[captures[n]..captures[n + 1]] else [])
  {
    var env := EnvOf(after, captures, data);
    TellsIs(ops, ps, table, nul, env);
    ValuesJoined(ps, table, env);
    hide Denotes, Substitute, ToEvaluate, Tells, IndexIn, Known;
    forall k | 0 <= k < |ps| && ps[k].Variable?
      ensures IndexIn(table, ps[k].name) < |table| <= |before|
      ensures var i := IndexIn(table, ps[k].name);
        i in ToEvaluate(before, ops) <==>
        (!before[i].valid && !before[i].notFound) || before[i].noCacheable
    {
      KnownAt(ps, table, k);
      AskedFor(ops, ps, table, nul, before, IndexIn(table, ps[k].name));
    }
  }

  lemma ConstantParts(source: Text)
    requires CountVariables(source) == 0 && CountGroups(source) == 0
    ensures Parse(source) == Some(if source == [] then [] else [Literal(source)])
    ensures Flatten(if source == [] then [] else [source]) == source
  {
    NoDollars(source);
    if source != [] {
      assert source[0] != DOLLAR;
      assert source[..|source|] == source && source[|source|..] == [];
      assert [Literal(source)] + [] == [Literal(source)] && [source][1..] == [] && source + [] == source;
    }
  }

  /**
   * Compiling and running a template is substituting into it: every piece is replaced where it
   * stands by what its variable or group stands for, and one NUL follows if asked for. Each
   * variable that the template mentions, and that holds nothing or may not stay cached, is asked
   * for by one handler call, which `asked` names, and contributes its answer.
   */
  method Interpret(source: Text, table: seq<Text>, zero: bool, s: Session)
    returns (ok: bool, value: seq<byte>, table': seq<Text>, ghost parts: seq<Text>, ghost asked: map<nat, nat>)
    requires |table| + 2 * |source| < WORD_MAX - 1 && CapturesOk(s.captures, s.data)
    requires |s.slots| >= |table| + |source|
    modifies s`slots, s`calls
    ensures ok <==> Parse(source).Some?
    ensures ok ==>
      var dollars := CountVariables(source) + CountGroups(source);
      && Known(Parse(source).value, table')
      && value == Substitute(Parse(source).value, table', EnvOf(s.slots, s.captures, s.data)) + Nul(zero && dollars > 0)
    ensures ok ==>
      var ps := Parse(source).value;
      |parts| == |ps| && value == Flatten(parts) + (if zero && 0x24 in source then [0] else [])
    ensures ok ==>
      var ps, slots := Parse(source).value, old(s.slots);
      && (forall k :: 0 <= k < |ps| && ps[k].Literal? ==> parts[k] == ps[k].text)
      && (forall k :: 0 <= k < |ps| && ps[k].Variable? ==>
            var i := IndexIn(table', ps[k].name);
            && i < |table'| && i < |slots|
            && parts[k] ==
               if i in asked then if s.handlers(i, asked[i]).Value? then s.handlers(i, asked[i]).text else []
               else if !slots[i].valid || slots[i].notFound || (slots[i].noCacheable && s.depth == 0) then []
               else slots[i].text)
      && (forall k :: 0 <= k < |ps| && ps[k].Group? ==>
            var n := 2 * ps[k].digit;
            parts[k] ==
            if n + 1 < |s.captures| && 0 <= s.captures[n] <= s.captures[n + 1] <= |s.data|
            then s.data[s.captures[n]..s.captures[n + 1]] else [])
    ensures s.calls == old(s.calls) + |asked| && OwnCalls(asked, old(s.calls), s.calls)
    ensures ok ==>
      var ps := Parse(source).value;
      forall i: nat :: i in asked <==>
        && s.depth > 0 && i < |old(s.slots)|
        && ((!old(s.slots)[i].valid && !old(s.slots)[i].notFound) || old(s.slots)[i].noCacheable)
        && exists k :: 0 <= k < |ps| && ps[k].Variable? && IndexIn(table', ps[k].name) == i
  {
    hide Program, Parse, Known, Substitute, CountVariables, CountGroups, Used, Tells, ToEvaluate, Denotes;
    hide IndexIn, Stored, Emptied, EnvOf, Values, Flatten;
    var cv;
    ghost var ops, before := [], s.slots;
    cv, table', ops := CompileComplexValue(source, table, zero);
    asked, parts := map[], [];
    AnyDollar(source);
    match cv
    case Failed => ok, value := false, [];
    case Constant(text) =>
      ok, value := true, text;
      ConstantIsItself(source, table', EnvOf(s.slots, s.captures, s.data));
      ConstantParts(source);
      parts := if source == [] then [] else [source];
      assert text + [] == text;
    case Dynamic(_, _, _) =>
      OpsMore(ops, |table'|, |s.slots|);
      var buf;
      ghost var each;
      buf, each, asked := s.ComplexValue(cv, ops);
      ghost var ps, nul := Parse(source).value, Nul(zero);
      TellsIs(ops, ps, table', nul, EnvOf(s.slots, s.captures, s.data));
      PiecesAre(ops, ps, table', nul, before, s.slots, s.depth, s.captures, s.data, s.handlers, s.flags, asked);
      parts := Values(ps, table', EnvOf(s.slots, s.captures, s.data));
      AllAskedFor(ops, ps, table', nul, before);
      ok, value := true, buf[..];
  }
}
