/** Templates with `$name`, `${name}` and `$1`..`$9`: what they are, and how they are read. */
module ScriptTemplate {
  import opened Bytes
  import opened Options

  type Text = seq<byte>

  const DOLLAR: byte := 0x24
  const OPEN: byte := 0x7b
  const CLOSE: byte := 0x7d

  datatype Piece = Literal(text: Text) | Variable(name: Text, braced: bool) | Group(digit: nat)

  predicate NameByte(b: byte) {
    || 0x41 <= b <= 0x5a || 0x61 <= b <= 0x7a || 0x30 <= b <= 0x39 || b == 0x5f
  }

  predicate GroupByte(b: byte) { 0x31 <= b <= 0x39 }

  // ----- well-formed templates, printed -----

  ghost predicate PieceOk(p: Piece) {
    match p
    case Literal(t) => t != [] && forall i :: 0 <= i < |t| ==> t[i] != DOLLAR
    case Variable(n, braced) =>
      n != [] && (forall i :: 0 <= i < |n| ==> NameByte(n[i])) && (!braced ==> !GroupByte(n[0]))
    case Group(d) => 1 <= d <= 9
  }

  function Print(p: Piece): Text {
    match p
    case Literal(t) => t
    case Variable(n, braced) => if braced then [DOLLAR, OPEN] + n + [CLOSE] else [DOLLAR] + n
    case Group(d) => [DOLLAR, if d <= 9 then 0x30 + d else 0]
  }

  function PrintAll(ps: seq<Piece>): Text {
    if ps == [] then [] else Print(ps[0]) + PrintAll(ps[1..])
  }

  /** A piece that ends where the next one starts. */
  predicate EndsBefore(p: Piece, rest: Text) {
    match p
    case Literal(_) => rest == [] || rest[0] == DOLLAR
    case Variable(_, braced) => braced || rest == [] || !NameByte(rest[0])
    case Group(_) => true
  }

  ghost predicate WellFormed(ps: seq<Piece>) {
    ps == [] || (PieceOk(ps[0]) && EndsBefore(ps[0], PrintAll(ps[1..])) && WellFormed(ps[1..]))
  }

  // ----- reading -----

  function LiteralLen(s: Text): (n: nat)
    ensures n <= |s| && (forall i :: 0 <= i < n ==> s[i] != DOLLAR) && (n < |s| ==> s[n] == DOLLAR)
  {
    if s == [] || s[0] == DOLLAR then 0 else
      var n := LiteralLen(s[1..]);
      assert forall i :: 0 < i < n + 1 ==> s[i] == s[1..][i - 1];
      n + 1
  }

  function NameLen(s: Text): (n: nat)
    ensures n <= |s| && (forall i :: 0 <= i < n ==> NameByte(s[i])) && (n < |s| ==> !NameByte(s[n]))
  {
    if s == [] || !NameByte(s[0]) then 0 else
      var n := NameLen(s[1..]);
      assert forall i :: 0 < i < n + 1 ==> s[i] == s[1..][i - 1];
      n + 1
  }

  datatype Read = Invalid | Read(piece: Piece, len: nat)

  /** The first piece of a template, and how long it is. */
  function ReadPiece(s: Text): (r: Read)
    requires s != []
    ensures r.Read? ==> 0 < r.len <= |s|
  {
    if s[0] != DOLLAR then Read(Literal(s[..LiteralLen(s)]), LiteralLen(s))
    else if |s| == 1 then Invalid
    else if GroupByte(s[1]) then Read(Group(s[1] - 0x30), 2)
    else if s[1] == OPEN then
      var n := NameLen(s[2..]);
      if 2 + n == |s| || s[2 + n] != CLOSE || n == 0 then Invalid
      else Read(Variable(s[2..2 + n], true), n + 3)
    else
      var n := NameLen(s[1..]);
      if n == 0 then Invalid else Read(Variable(s[1..1 + n], false), n + 1)
  }

  function Before(ps: seq<Piece>, rest: Option<seq<Piece>>): Option<seq<Piece>> {
    match rest
    case None => None
    case Some(qs) => Some(ps + qs)
  }

  function Parse(s: Text): Option<seq<Piece>>
    decreases |s|
  {
    if s == [] then Some([]) else
      match ReadPiece(s)
      case Invalid => None
      case Read(p, n) => Before([p], Parse(s[n..]))
  }

  /** How the pieces look in a template: `$name`, `${name}` and `$1` to `$9`. */
  lemma PrintMeans(p: Piece)
    requires PieceOk(p)
    ensures p.Literal? ==> Print(p) == p.text && 0x24 !in p.text
    ensures p.Variable? ==>
      && Print(p) == (if p.braced then [0x24, 0x7b] + p.name + [0x7d] else [0x24] + p.name)
      && forall i :: 0 <= i < |p.name| ==>
           var b := p.name[i];
           0x41 <= b <= 0x5a || 0x61 <= b <= 0x7a || 0x30 <= b <= 0x39 || b == 0x5f
    ensures p.Group? ==> Print(p) == [0x24, 0x30 + p.digit] && 1 <= p.digit <= 9
  {
  }

  // ----- reading undoes printing -----

  /** What is read is the start of the template, and it ends there. */
  lemma ReadIsPrinted(s: Text)
    requires s != [] && ReadPiece(s).Read?
    ensures var r := ReadPiece(s);
      PieceOk(r.piece) && Print(r.piece) == s[..r.len] && EndsBefore(r.piece, s[r.len..])
  {
    var r := ReadPiece(s);
    if s[0] != DOLLAR {
    } else if GroupByte(s[1]) {
      assert s[..2] == [s[0], s[1]];
    } else if s[1] == OPEN {
      var n := NameLen(s[2..]);
      assert s[2..][n] == s[2 + n];
      assert s[..n + 3] == [DOLLAR, OPEN] + s[2..2 + n] + [CLOSE];
      assert s[2..2 + n] == s[2..][..n];
    } else {
      var n := NameLen(s[1..]);
      assert s[..n + 1] == [DOLLAR] + s[1..1 + n];
      assert s[1..1 + n] == s[1..][..n];
    }
  }

  /** An accepted template is the print of well-formed pieces. */
  lemma {:induction false} ParseSound(s: Text)
    requires Parse(s).Some?
    ensures WellFormed(Parse(s).value) && PrintAll(Parse(s).value) == s
    decreases |s|
  {
    hide ReadPiece, Print, PieceOk, EndsBefore;
    if s != [] {
      var r := ReadPiece(s);
      ReadIsPrinted(s);
      ParseSound(s[r.len..]);
      var qs := Parse(s[r.len..]).value;
      assert ([r.piece] + qs)[1..] == qs;
      assert s == s[..r.len] + s[r.len..];
    }
  }

  lemma {:induction false} NameLenIs(n: Text, rest: Text)
    requires (forall i :: 0 <= i < |n| ==> NameByte(n[i])) && (rest == [] || !NameByte(rest[0]))
    ensures NameLen(n + rest) == |n|
  {
    if n == [] {
      assert n + rest == rest;
    } else {
      assert (n + rest)[1..] == n[1..] + rest;
      NameLenIs(n[1..], rest);
    }
  }

  lemma {:induction false} LiteralLenIs(t: Text, rest: Text)
    requires (forall i :: 0 <= i < |t| ==> t[i] != DOLLAR) && (rest == [] || rest[0] == DOLLAR)
    ensures LiteralLen(t + rest) == |t|
  {
    if t == [] {
      assert t + rest == rest;
    } else {
      assert (t + rest)[1..] == t[1..] + rest;
      LiteralLenIs(t[1..], rest);
    }
  }

  lemma ReadLiteral(t: Text, rest: Text)
    requires PieceOk(Literal(t)) && EndsBefore(Literal(t), rest)
    ensures ReadPiece(t + rest) == Read(Literal(t), |t|)
  {
    LiteralLenIs(t, rest);
    hide LiteralLen, NameLen;
    assert (t + rest)[..|t|] == t;
  }

  lemma ReadBraced(n: Text, rest: Text)
    requires PieceOk(Variable(n, true))
    ensures ReadPiece([DOLLAR, OPEN] + n + [CLOSE] + rest) == Read(Variable(n, true), |n| + 3)
  {
    var s, tail := [DOLLAR, OPEN] + n + [CLOSE] + rest, [CLOSE] + rest;
    NameLenIs(n, tail);
    hide LiteralLen, NameLen, PieceOk;
    assert s[2..] == n + tail;
    assert s[2..2 + |n|] == n && s[2 + |n|] == CLOSE && s[0] == DOLLAR && s[1] == OPEN;
  }

  lemma ReadBare(n: Text, rest: Text)
    requires PieceOk(Variable(n, false)) && EndsBefore(Variable(n, false), rest)
    ensures ReadPiece([DOLLAR] + n + rest) == Read(Variable(n, false), |n| + 1)
  {
    var s := [DOLLAR] + n + rest;
    NameLenIs(n, rest);
    assert s[1] == n[0];
    hide LiteralLen, NameLen, PieceOk;
    assert s[1..] == n + rest;
    assert s[1..1 + |n|] == n && s[0] == DOLLAR;
  }

  lemma ReadPrinted(p: Piece, rest: Text)
    requires PieceOk(p) && EndsBefore(p, rest)
    ensures Print(p) != [] && ReadPiece(Print(p) + rest) == Read(p, |Print(p)|)
    ensures (Print(p) + rest)[|Print(p)|..] == rest
  {
    match p
    case Literal(t) => ReadLiteral(t, rest);
    case Variable(n, braced) => if braced { ReadBraced(n, rest); } else { ReadBare(n, rest); }
    case Group(d) =>
  }

  /** Every print of well-formed pieces is accepted, as those pieces. */
  lemma {:induction false} ParseComplete(ps: seq<Piece>)
    requires WellFormed(ps)
    ensures Parse(PrintAll(ps)) == Some(ps)
  {
    if ps != [] {
      ReadPrinted(ps[0], PrintAll(ps[1..]));
      ParseComplete(ps[1..]);
      assert [ps[0]] + ps[1..] == ps;
    }
  }

  // ----- counting variables -----

  /** The variables the compiler counts beforehand: dollars without a digit from 1 to 9 behind them. */
  function CountVariables(s: Text): nat {
    if s == [] then 0
    else (if s[0] == DOLLAR && !(|s| > 1 && GroupByte(s[1])) then 1 else 0) + CountVariables(s[1..])
  }

  function CountGroups(s: Text): nat {
    if s == [] then 0
    else (if s[0] == DOLLAR && |s| > 1 && GroupByte(s[1]) then 1 else 0) + CountGroups(s[1..])
  }

  lemma {:induction false} PlainCounts(s: Text, k: nat)
    requires k <= |s| && forall i :: 0 <= i < k ==> s[i] != DOLLAR
    ensures CountVariables(s) == CountVariables(s[k..]) && CountGroups(s) == CountGroups(s[k..])
  {
    if k > 0 {
      assert s[1..][k - 1..] == s[k..];
      PlainCounts(s[1..], k - 1);
    }
  }

  /** A piece accounts for one count if it is a variable or a group. */
  lemma ReadCounts(s: Text)
    requires s != [] && ReadPiece(s).Read?
    ensures var r := ReadPiece(s);
      && CountVariables(s) == (if r.piece.Variable? then 1 else 0) + CountVariables(s[r.len..])
      && CountGroups(s) == (if r.piece.Group? then 1 else 0) + CountGroups(s[r.len..])
  {
    var r := ReadPiece(s);
    if s[0] != DOLLAR {
      PlainCounts(s, r.len);
    } else {
      var t := s[1..];
      ReadIsPrinted(s);
      var x := Print(r.piece);
      forall i | 0 <= i < r.len - 1 ensures t[i] != DOLLAR {
        assert t[i] == x[i + 1];
      }
      PlainCounts(t, r.len - 1);
      assert t[r.len - 1..] == s[r.len..];
    }
  }

  lemma {:induction false} AnyDollar(s: Text)
    ensures CountVariables(s) + CountGroups(s) > 0 <==> DOLLAR in s
  {
    if s != [] {
      AnyDollar(s[1..]);
      assert s == [s[0]] + s[1..];
    }
  }

  function Variables(ps: seq<Piece>): nat {
    if ps == [] then 0 else (if ps[0].Variable? then 1 else 0) + Variables(ps[1..])
  }

  /** For an accepted template the count is exact. */
  lemma {:induction false} CountIsExact(s: Text)
    requires Parse(s).Some?
    ensures Variables(Parse(s).value) == CountVariables(s)
    decreases |s|
  {
    if s != [] {
      var r := ReadPiece(s);
      ReadCounts(s);
      CountIsExact(s[r.len..]);
      var qs := Parse(s[r.len..]).value;
      assert ([r.piece] + qs)[1..] == qs;
    }
  }

  /** Without dollars a template is one literal, or empty. */
  lemma {:induction false} NoDollars(s: Text)
    requires CountVariables(s) == 0 && CountGroups(s) == 0
    ensures LiteralLen(s) == |s|
  {
    if s != [] { NoDollars(s[1..]); }
  }
}
