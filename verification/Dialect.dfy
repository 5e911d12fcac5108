/** internal/repository/database/dialect.go: placeholders. MySQL binds `?` from left to right, PostgreSQL binds `$n` by
    number; the statement texts are written so that both bind the same values. Texts are up to white space. */
module Dialect {
  import opened Texts

  predicate IsDigit(c: char) {
    '0' <= c <= '9'
  }

  function DigitChar(d: nat): (c: char)
    requires d < 10
    ensures IsDigit(c) && c as int - '0' as int == d
  {
    (d + '0' as int) as char
  }

  /** Decimal rendering, as fmt's %d of a natural number. */
  function Itoa(n: nat): (s: string)
    ensures s != "" && forall i | 0 <= i < |s| :: IsDigit(s[i])
  {
    if n < 10 then [DigitChar(n)] else Itoa(n / 10) + [DigitChar(n % 10)]
  }

  function DigitValue(c: char): (d: nat)
    requires IsDigit(c)
  {
    c as int - '0' as int
  }

  function ParseNat(s: string): nat
    requires forall i | 0 <= i < |s| :: IsDigit(s[i])
  {
    if s == "" then 0 else 10 * ParseNat(s[..|s| - 1]) + DigitValue(s[|s| - 1])
  }

  lemma {:induction false} ParseItoa(n: nat)
    ensures ParseNat(Itoa(n)) == n
  {
    if n >= 10 {
      ParseItoa(n / 10);
      assert Itoa(n)[..|Itoa(n)| - 1] == Itoa(n / 10);
    } else {
      assert ParseNat(Itoa(n)[..0]) == 0;
    }
  }

  function Arg(postgres: bool, pos: nat): string {
    if postgres then "$" + Itoa(pos) else "?"
  }

  /** The placeholders that args joins. */
  function ArgList(postgres: bool, start: nat, count: nat): (ph: seq<string>)
    ensures |ph| == count
  {
    seq(count, i requires 0 <= i < count => Arg(postgres, start + i))
  }

  method Args(postgres: bool, start: nat, count: nat) returns (s: string)
    ensures s == Join(ArgList(postgres, start, count), ", ")
  {
    var ph := new string[count](_ => "");
    for i := 0 to count
      invariant forall j | 0 <= j < i :: ph[j] == Arg(postgres, start + j)
    {
      ph[i] := Arg(postgres, start + i);
    }
    assert ph[..] == ArgList(postgres, start, count);
    s := Join(ph[..], ", ");
  }

  /** The digits a text starts with. */
  function LeadingDigits(text: string): (d: string)
    ensures d <= text && forall i | 0 <= i < |d| :: IsDigit(d[i])
  {
    if text == "" || !IsDigit(text[0]) then "" else [text[0]] + LeadingDigits(text[1..])
  }

  /** Which bind parameter (from 1) each placeholder of a text stands for, in text order: PostgreSQL's reading. */
  function NumberedPositions(text: string): seq<nat> {
    if text == "" then []
    else if text[0] == '$' then
      var d := LeadingDigits(text[1..]);
      [ParseNat(d)] + NumberedPositions(text[1 + |d|..])
    else NumberedPositions(text[1..])
  }

  /** The same in MySQL's reading; `next` is the parameter that comes next. */
  function OrderedPositions(text: string, next: nat): seq<nat> {
    if text == "" then []
    else if text[0] == '?' then [next] + OrderedPositions(text[1..], next + 1)
    else OrderedPositions(text[1..], next)
  }

  function Positions(postgres: bool, text: string): seq<nat> {
    if postgres then NumberedPositions(text) else OrderedPositions(text, 1)
  }

  /** A statement: literal text and calls of arg. */
  datatype Piece = Lit(text: string) | Hole(pos: nat)

  function Render(postgres: bool, pieces: seq<Piece>): string {
    if pieces == [] then ""
    else (match pieces[0]
          case Lit(text) => text
          case Hole(pos) => Arg(postgres, pos)) + Render(postgres, pieces[1..])
  }

  function Holes(pieces: seq<Piece>): seq<nat> {
    if pieces == [] then [] else (if pieces[0].Hole? then [pieces[0].pos] else []) + Holes(pieces[1..])
  }

  predicate Plain(text: string) {
    forall c | c in text :: c != '?' && c != '$'
  }

  /** Literals hold no placeholder characters, and no digit follows a placeholder. */
  predicate Clean(pieces: seq<Piece>) {
    pieces == [] ||
    (Clean(pieces[1..]) &&
     match pieces[0]
     case Lit(text) => Plain(text)
     case Hole(_) => |pieces| == 1 || (pieces[1].Lit? && pieces[1].text != "" && !IsDigit(pieces[1].text[0])))
  }

  lemma {:induction false} SkipPlain(text: string, rest: string, next: nat)
    requires Plain(text)
    ensures NumberedPositions(text + rest) == NumberedPositions(rest)
    ensures OrderedPositions(text + rest, next) == OrderedPositions(rest, next)
  {
    if text == "" {
      assert text + rest == rest;
    } else {
      assert text[0] in text && forall c | c in text[1..] :: c in text;
      SkipPlain(text[1..], rest, next);
      assert (text + rest)[1..] == text[1..] + rest;
    }
  }

  lemma {:induction false} DigitsThenOther(d: string, rest: string)
    requires forall i | 0 <= i < |d| :: IsDigit(d[i])
    requires rest == "" || !IsDigit(rest[0])
    ensures LeadingDigits(d + rest) == d
  {
    if d == "" {
      assert d + rest == rest;
    } else {
      DigitsThenOther(d[1..], rest);
      assert (d + rest)[1..] == d[1..] + rest;
    }
  }

  lemma NumberedStart(d: string, rest: string)
    requires forall i | 0 <= i < |d| :: IsDigit(d[i])
    requires rest == "" || !IsDigit(rest[0])
    ensures NumberedPositions("$" + d + rest) == [ParseNat(d)] + NumberedPositions(rest)
  {
    var text := "$" + d + rest;
    DigitsThenOther(d, rest);
    assert text[1..] == d + rest;
    assert text[1 + |d|..] == rest;
  }

  lemma NumberedHole(pos: nat, rest: string)
    requires rest == "" || !IsDigit(rest[0])
    ensures NumberedPositions("$" + Itoa(pos) + rest) == [pos] + NumberedPositions(rest)
  {
    NumberedStart(Itoa(pos), rest);
    ParseItoa(pos);
  }

  /** PostgreSQL reads back the very numbers the statement was written with. */
  lemma {:induction false} NumberedReadsBack(pieces: seq<Piece>)
    requires Clean(pieces)
    ensures NumberedPositions(Render(true, pieces)) == Holes(pieces)
  {
    if pieces != [] {
      var rest := Render(true, pieces[1..]);
      NumberedReadsBack(pieces[1..]);
      match pieces[0]
      case Lit(text) => SkipPlain(text, rest, 0);
      case Hole(pos) =>
        if |pieces| > 1 {
          assert rest[0] == pieces[1].text[0];
        }
        NumberedHole(pos, rest);
    }
  }

  function UpFrom(start: nat, count: nat): (r: seq<nat>)
    ensures |r| == count && forall i | 0 <= i < count :: r[i] == start + i
  {
    seq(count, i => start + i)
  }

  lemma UpFromFirst(start: nat, count: nat)
    requires count > 0
    ensures UpFrom(start, count) == [start] + UpFrom(start + 1, count - 1)
  {
  }

  lemma OrderedHole(rest: string, next: nat)
    ensures OrderedPositions("?" + rest, next) == [next] + OrderedPositions(rest, next + 1)
  {
    assert ("?" + rest)[1..] == rest;
  }

  /** MySQL counts placeholders, whatever numbers the statement was written with. */
  lemma {:induction false} OrderedCounts(pieces: seq<Piece>, next: nat)
    requires Clean(pieces)
    ensures OrderedPositions(Render(false, pieces), next) == UpFrom(next, |Holes(pieces)|)
  {
    if pieces != [] {
      var rest := Render(false, pieces[1..]);
      match pieces[0]
      case Lit(text) =>
        OrderedCounts(pieces[1..], next);
        SkipPlain(text, rest, next);
      case Hole(_) =>
        OrderedCounts(pieces[1..], next + 1);
        OrderedHole(rest, next);
        UpFromFirst(next, |Holes(pieces)|);
    }
  }

  /** The two dialects bind alike exactly when the statement numbers its placeholders 1, 2, 3, ... from left to
      right. */
  lemma DialectsAgreeExactly(pieces: seq<Piece>)
    requires Clean(pieces)
    ensures Positions(true, Render(true, pieces)) == Positions(false, Render(false, pieces))
            <==> Holes(pieces) == UpFrom(1, |Holes(pieces)|)
  {
    NumberedReadsBack(pieces);
    OrderedCounts(pieces, 1);
  }

  /** args(start, count) as pieces. */
  function ArgPieces(start: nat, count: nat): seq<Piece>
    decreases count
  {
    if count == 0 then [] else if count == 1 then [Hole(start)]
        else [Hole(start), Lit(", ")] + ArgPieces(start + 1, count - 1)
  }

  lemma ArgPiecesUnroll(start: nat, count: nat)
    requires count > 1
    ensures var pieces := ArgPieces(start, count);
            |pieces| > 2 && pieces[0] == Hole(start) && pieces[1] == Lit(", ") && pieces[1..][0] == Lit(", ")
            && pieces[1..][1..] == ArgPieces(start + 1, count - 1)
  {
  }

  lemma {:induction false} ArgsRendered(postgres: bool, start: nat, count: nat)
    ensures Render(postgres, ArgPieces(start, count)) == Join(ArgList(postgres, start, count), ", ")
    decreases count
  {
    var pieces := ArgPieces(start, count);
    if count == 1 {
      assert Arg(postgres, start) + "" == Arg(postgres, start);
    } else if count > 1 {
      ArgsRendered(postgres, start + 1, count - 1);
      ArgPiecesUnroll(start, count);
      assert ArgList(postgres, start, count)[1..] == ArgList(postgres, start + 1, count - 1);
      assert Render(postgres, pieces[1..]) == ", " + Render(postgres, ArgPieces(start + 1, count - 1));
    }
  }

  lemma {:induction false} ArgsAreClean(start: nat, count: nat)
    ensures Clean(ArgPieces(start, count))
    ensures count > 0 ==> ArgPieces(start, count) != [] && ArgPieces(start, count)[0].Hole?
    decreases count
  {
    if count > 1 {
      ArgsAreClean(start + 1, count - 1);
      ArgPiecesUnroll(start, count);
      assert Plain(", ") && !IsDigit(", "[0]);
      assert Clean(ArgPieces(start, count)[1..]);
    } else if count == 1 {
      assert Clean(ArgPieces(start, count)[1..]);
    }
  }

  lemma {:induction false} ArgHoles(start: nat, count: nat)
    ensures Holes(ArgPieces(start, count)) == UpFrom(start, count)
    decreases count
  {
    if count > 1 {
      ArgHoles(start + 1, count - 1);
      ArgPiecesUnroll(start, count);
      assert Holes(ArgPieces(start, count)[1..]) == [] + Holes(ArgPieces(start + 1, count - 1));
      UpFromFirst(start, count);
    } else if count == 1 {
      assert Holes(ArgPieces(start, count)[1..]) == [];
    }
  }

  /** args written for PostgreSQL and read back gives start, start + 1, ..., start + count - 1. */
  lemma ArgsReadBack(start: nat, count: nat)
    ensures NumberedPositions(Join(ArgList(true, start, count), ", ")) == UpFrom(start, count)
  {
    ArgsRendered(true, start, count);
    ArgHoles(start, count);
    ArgsAreClean(start, count);
    NumberedReadsBack(ArgPieces(start, count));
  }
}
