/** The statements' texts read back: the columns that the rendered INSERT lists, and the column that each
    placeholder of the rendered UPDATE, search and lookups belongs to. Column and table names are the words in lower
    case. */
module StatementTexts {
  import opened Dialect
  import opened Statements

  predicate IsNameChar(c: char) {
    'a' <= c <= 'z' || c == '_'
  }

  predicate IsName(w: string) {
    w != "" && forall i | 0 <= i < |w| :: IsNameChar(w[i])
  }

  /** A text that cannot run into a name that follows it. */
  predicate EndsOutsideName(text: string) {
    text == "" || !IsNameChar(text[|text| - 1])
  }

  predicate StartsOutsideName(text: string) {
    text == "" || !IsNameChar(text[0])
  }

  /** No name at all. */
  predicate Quiet(text: string) {
    forall i | 0 <= i < |text| :: !IsNameChar(text[i])
  }

  function LeadingName(text: string): (w: string)
    ensures w <= text && (forall i | 0 <= i < |w| :: IsNameChar(w[i])) && StartsOutsideName(text[|w|..])
    ensures text != "" && IsNameChar(text[0]) ==> w != ""
  {
    if text == "" || !IsNameChar(text[0]) then "" else [text[0]] + LeadingName(text[1..])
  }

  /** The names of a text, in order. */
  function Names(text: string): seq<string>
    decreases |text|
  {
    if text == "" then []
    else if IsNameChar(text[0]) then
      var w := LeadingName(text);
      [w] + Names(text[|w|..])
    else Names(text[1..])
  }

  /** For each placeholder of a text, the name before it and the parameter it stands for; `next` is the parameter that
      comes next when placeholders are counted. */
  function Bindings(postgres: bool, text: string, last: string, next: nat): seq<(string, nat)>
    decreases |text|
  {
    if text == "" then []
    else if IsNameChar(text[0]) then
      var w := LeadingName(text);
      Bindings(postgres, text[|w|..], w, next)
    else if postgres && text[0] == '$' then
      var d := LeadingDigits(text[1..]);
      [(last, ParseNat(d))] + Bindings(postgres, text[1 + |d|..], last, next + 1)
    else if !postgres && text[0] == '?' then
      [(last, next)] + Bindings(postgres, text[1..], last, next + 1)
    else Bindings(postgres, text[1..], last, next)
  }

  function LastName(text: string, last: string): string
    decreases |text|
  {
    if text == "" then last
    else if IsNameChar(text[0]) then
      var w := LeadingName(text);
      LastName(text[|w|..], w)
    else LastName(text[1..], last)
  }

  lemma {:induction false} NameStops(w: string, rest: string)
    requires (forall i | 0 <= i < |w| :: IsNameChar(w[i])) && StartsOutsideName(rest)
    ensures LeadingName(w + rest) == w
  {
    if w == "" {
      assert w + rest == rest;
    } else {
      NameStops(w[1..], rest);
      assert (w + rest)[1..] == w[1..] + rest;
    }
  }

  lemma NameThenRest(w: string, rest: string)
    requires IsName(w) && StartsOutsideName(rest)
    ensures Names(w + rest) == [w] + Names(rest)
    ensures forall p, last, next :: Bindings(p, w + rest, last, next) == Bindings(p, rest, w, next)
  {
    NameStops(w, rest);
    assert (w + rest)[|w|..] == rest;
  }

  /** The name that a text starts with, when more text follows. */
  lemma LeadingNameStays(text: string, rest: string)
    requires text != "" && EndsOutsideName(text)
    ensures LeadingName(text + rest) == LeadingName(text) && |LeadingName(text)| < |text|
  {
    var w := LeadingName(text);
    assert text == w + text[|w|..];
    assert text[|w|..] != "" ==> text + rest == w + (text[|w|..] + rest);
    NameStops(w, text[|w|..] + rest);
  }

  lemma {:induction false} PassText(p: bool, text: string, rest: string, last: string, next: nat)
    requires Plain(text) && EndsOutsideName(text)
    ensures Bindings(p, text + rest, last, next) == Bindings(p, rest, LastName(text, last), next)
    decreases |text|
  {
    if text == "" {
      assert text + rest == rest;
    } else if IsNameChar(text[0]) {
      var w := LeadingName(text);
      LeadingNameStays(text, rest);
      PlainSuffix(text, |w|);
      PassText(p, text[|w|..], rest, w, next);
      assert (text + rest)[|w|..] == text[|w|..] + rest;
    } else {
      PlainSuffix(text, 1);
      PassText(p, text[1..], rest, last, next);
      assert text[0] in text && (text + rest)[1..] == text[1..] + rest;
    }
  }

  lemma PlainSuffix(text: string, n: nat)
    requires Plain(text) && EndsOutsideName(text) && n <= |text|
    ensures Plain(text[n..]) && EndsOutsideName(text[n..])
  {
    assert forall c | c in text[n..] :: c in text;
  }

  lemma {:induction false} QuietPasses(text: string, rest: string, last: string)
    requires Quiet(text)
    ensures Names(text + rest) == Names(rest) && LastName(text, last) == last
  {
    if text == "" {
      assert text + rest == rest;
    } else {
      QuietPasses(text[1..], rest, last);
      assert (text + rest)[1..] == text[1..] + rest;
    }
  }

  lemma PassHole(p: bool, pos: nat, rest: string, last: string, next: nat)
    requires (rest == "" || !IsDigit(rest[0])) && (p || pos == next)
    ensures Bindings(p, Arg(p, pos) + rest, last, next) == [(last, pos)] + Bindings(p, rest, last, next + 1)
  {
    if p {
      var d := Itoa(pos);
      var text := "$" + d + rest;
      DigitsThenOther(d, rest);
      ParseItoa(pos);
      assert Arg(p, pos) + rest == text && text[1..] == d + rest && text[1 + |d|..] == rest;
    } else {
      assert ("?" + rest)[1..] == rest;
    }
  }

  /** A clause "... column =": its column's name is the last one before the placeholder. */
  predicate NamesItsColumn(c: Clause) {
    && PlainClause(c) && c.slot.Col?
    && EndsOutsideName(c.before) && c.after != "" && Quiet(c.after)
  }

  lemma NamesAreNames(c: Column)
    ensures IsName(Name(c))
  {
  }

  lemma PassClause(p: bool, c: Clause, rest: string, last: string, next: nat)
    requires NamesItsColumn(c)
    ensures Bindings(p, ClauseText(c) + rest, last, next) == Bindings(p, rest, Name(c.slot.column), next)
  {
    var name := Name(c.slot.column);
    NamesAreNames(c.slot.column);
    assert ClauseText(c) + rest == c.before + (name + (c.after + rest));
    PassText(p, c.before, name + (c.after + rest), last, next);
    NameThenRest(name, c.after + rest);
    PassText(p, c.after, rest, name, next);
    QuietPasses(c.after, rest, name);
  }

  /** The columns of a statement's clauses with their parameters. */
  function Paired(clauses: seq<Clause>, first: nat): seq<(string, nat)>
    requires forall c | c in clauses :: c.slot.Col?
  {
    if clauses == [] then []
    else assert clauses[0] in clauses; [(Name(clauses[0].slot.column), first)] + Paired(clauses[1..], first + 1)
  }

  /** Under either driver, reading a labelled statement pairs its k-th column with the k-th parameter. */
  lemma {:induction false} LabelledReadsBack(p: bool, clauses: seq<Clause>, first: nat, last: string)
    requires forall c | c in clauses :: NamesItsColumn(c) && c.slot.Col?
    ensures Bindings(p, Render(p, Labelled(clauses, first)), last, first) == Paired(clauses, first)
    decreases |clauses|
  {
    if clauses != [] {
      var c, tail := clauses[0], Labelled(clauses[1..], first + 1);
      assert c in clauses && forall d | d in clauses[1..] :: d in clauses;
      var pieces, rest := Labelled(clauses, first), Render(p, tail);
      assert pieces[0] == Lit(ClauseText(c)) && pieces[1..][0] == Hole(first) && pieces[1..][1..] == tail;
      assert Render(p, pieces) == ClauseText(c) + (Arg(p, first) + rest);
      PassClause(p, c, Arg(p, first) + rest, last, first);
      RestStartsPlainly(p, clauses[1..], first + 1);
      PassHole(p, first, rest, Name(c.slot.column), first);
      LabelledReadsBack(p, clauses[1..], first + 1, Name(c.slot.column));
    }
  }

  lemma RestStartsPlainly(p: bool, clauses: seq<Clause>, first: nat)
    requires forall c | c in clauses :: NamesItsColumn(c)
    ensures var rest := Render(p, Labelled(clauses, first)); rest == "" || !IsDigit(rest[0])
  {
    if clauses != [] {
      var c, pieces := clauses[0], Labelled(clauses, first);
      assert c in clauses && pieces[0] == Lit(ClauseText(c));
      assert Render(p, pieces)[0] == c.before[0];
    }
  }

  lemma UpdateClausesNameColumns()
    ensures forall c | c in Assign(UPDATE_COLUMNS) + [UPDATE_WHERE] :: NamesItsColumn(c)
  {
    AssignIsPlain(UPDATE_COLUMNS);
    WhereIsPlain();
    assert EndsOutsideName("UPDATE users SET ") && EndsOutsideName(", ") && Quiet(" = ");
    assert UPDATE_WHERE.before[|UPDATE_WHERE.before| - 1] == ' ';
  }

  /** The pairs of a statement, one by one. */
  lemma {:induction false} PairedAt(clauses: seq<Clause>, first: nat, k: nat)
    requires (forall c | c in clauses :: c.slot.Col?) && k < |clauses|
    ensures |Paired(clauses, first)| == |clauses| &&
        Paired(clauses, first)[k] == (Name(clauses[k].slot.column), first + k)
    decreases |clauses|
  {
    if k > 0 {
      PairedAt(clauses[1..], first + 1, k - 1);
    } else if |clauses| > 1 {
      PairedAt(clauses[1..], first + 1, 0);
    }
  }

  const UPDATE_PAIRS: seq<(string, nat)> :=
    [("username", 1), ("email", 2), ("full_name", 3), ("avatar", 4), ("role", 5), ("is_active", 6),
     ("email_verified", 7), ("id", 8)]

  lemma UpdatePairAt(k: nat)
    requires k < 8
    ensures var clauses := Assign(UPDATE_COLUMNS) + [UPDATE_WHERE];
        (Name(clauses[k].slot.column), 1 + k) == UPDATE_PAIRS[k]
  {
  }

  lemma UpdatePairs()
    ensures Paired(Assign(UPDATE_COLUMNS) + [UPDATE_WHERE], 1) == UPDATE_PAIRS
  {
    var clauses := Assign(UPDATE_COLUMNS) + [UPDATE_WHERE];
    PairedAt(clauses, 1, 0);
    forall k | 0 <= k < 8 ensures Paired(clauses, 1)[k] == UPDATE_PAIRS[k] {
      PairedAt(clauses, 1, k);
      UpdatePairAt(k);
    }
  }

  /** Under either driver, the UPDATE's text gives each column the parameter in which UpdateUser passes it. */
  lemma UpdateReadsBack(p: bool)
    ensures Bindings(p, Render(p, UPDATE), "", 1) == UPDATE_PAIRS
  {
    UpdateClausesNameColumns();
    LabelledReadsBack(p, Assign(UPDATE_COLUMNS) + [UPDATE_WHERE], 1, "");
    UpdatePairs();
  }

  function NamesOf(columns: seq<Column>): seq<string> {
    if columns == [] then [] else [Name(columns[0])] + NamesOf(columns[1..])
  }

  lemma Assoc<T>(a: seq<T>, b: seq<T>, c: seq<T>)
    ensures (a + b) + c == a + (b + c)
  {
  }

  lemma NameThenQuiet(w: string, quiet: string, rest: string)
    requires IsName(w) && Quiet(quiet) && quiet != ""
    ensures Names((w + quiet) + rest) == [w] + Names(rest)
  {
    Assoc(w, quiet, rest);
    NameThenRest(w, quiet + rest);
    QuietPasses(quiet, rest, "");
  }

  lemma NameListUnrolls(columns: seq<Column>, rest: string)
    requires |columns| > 1
    ensures NameList(columns) + rest == (Name(columns[0]) + ", ") + (NameList(columns[1..]) + rest)
  {
    Assoc(Name(columns[0]) + ", ", NameList(columns[1..]), rest);
  }

  lemma NamesUnroll(columns: seq<Column>, more: seq<string>)
    requires columns != []
    ensures NamesOf(columns) + more == [Name(columns[0])] + (NamesOf(columns[1..]) + more)
  {
    Assoc([Name(columns[0])], NamesOf(columns[1..]), more);
  }

  lemma {:induction false} NameListReadsBack(columns: seq<Column>, rest: string)
    requires columns != [] && StartsOutsideName(rest)
    ensures Names(NameList(columns) + rest) == NamesOf(columns) + Names(rest)
  {
    NamesAreNames(columns[0]);
    NamesUnroll(columns, Names(rest));
    if |columns| == 1 {
      NameThenRest(Name(columns[0]), rest);
      assert NamesOf(columns[1..]) + Names(rest) == Names(rest);
    } else {
      NameListReadsBack(columns[1..], rest);
      NameListUnrolls(columns, rest);
      CommaIsQuiet();
      NameThenQuiet(Name(columns[0]), ", ", NameList(columns[1..]) + rest);
    }
  }

  lemma CommaIsQuiet()
    ensures Quiet(", ") && ", " != ""
  {
  }

  lemma {:induction false} ArgsAreQuiet(p: bool, start: nat, count: nat)
    ensures Quiet(Render(p, ArgPieces(start, count)))
    decreases count
  {
    var pieces := ArgPieces(start, count);
    DigitsAreQuiet(Itoa(start));
    if count == 1 {
      assert pieces[1..] == [];
    } else if count > 1 {
      ArgsAreQuiet(p, start + 1, count - 1);
      ArgPiecesUnroll(start, count);
      assert Render(p, pieces[1..]) == ", " + Render(p, ArgPieces(start + 1, count - 1));
    }
  }

  lemma DigitsAreQuiet(d: string)
    requires forall i | 0 <= i < |d| :: IsDigit(d[i])
    ensures Quiet(d)
  {
  }

  lemma RenderedBetween(p: bool, head: string, args: seq<Piece>, tail: string)
    ensures Render(p, [Lit(head)] + args + [Lit(tail)]) == head + (Render(p, args) + tail)
  {
    var pieces, end := [Lit(head)] + args + [Lit(tail)], [Lit(tail)];
    assert pieces == [Lit(head)] + (args + end) && pieces[1..] == args + end;
    RenderSum(p, args, end);
    assert end[1..] == [] && Render(p, end) == tail + "";
  }

  lemma {:induction false} RenderSum(p: bool, a: seq<Piece>, b: seq<Piece>)
    ensures Render(p, a + b) == Render(p, a) + Render(p, b)
  {
    if a == [] {
      assert a + b == b;
    } else {
      RenderSum(p, a[1..], b);
      assert (a + b)[1..] == a[1..] + b;
      var first := match a[0] case Lit(text) => text case Hole(pos) => Arg(p, pos);
      Assoc(first, Render(p, a[1..]), Render(p, b));
    }
  }

  /** A table's name, then its column list. */
  lemma TableThenColumns(before: string, table: string, open: string, columns: seq<Column>, rest: string)
    requires Quiet(before) && IsName(table) && Quiet(open) && open != "" && columns != [] && Quiet(rest)
    ensures Names((((before + table) + open) + NameList(columns)) + rest) == [table] + NamesOf(columns)
  {
    var list := NameList(columns);
    Assoc((before + table) + open, list, rest);
    Assoc(before + table, open, list + rest);
    Assoc(before, table, open + (list + rest));
    QuietPasses(before, table + (open + (list + rest)), "");
    Assoc(table, open, list + rest);
    NameThenQuiet(table, open, list + rest);
    NameListReadsBack(columns, rest);
    QuietPasses(rest, "", "");
    assert rest + "" == rest;
  }

  lemma InsertTexts()
    ensures "INSERT INTO users (" == ("INSERT INTO " + "users") + " ("
    ensures Quiet("INSERT INTO ") && IsName("users") && Quiet(" (")
  {
  }

  lemma QuietSum(a: string, b: string)
    requires Quiet(a) && Quiet(b)
    ensures Quiet(a + b)
  {
  }

  lemma InsertEndsQuietly(args: string)
    requires Quiet(args)
    ensures Quiet(") VALUES (" + (args + ", NOW(), NOW())"))
  {
    NowIsQuiet();
    QuietSum(args, ", NOW(), NOW())");
    QuietSum(") VALUES (", args + ", NOW(), NOW())");
  }

  lemma NowIsQuiet()
    ensures Quiet(", NOW(), NOW())") && Quiet(") VALUES (")
  {
  }

  const INSERT_NAMES: seq<string> :=
    ["id", "username", "email", "password", "full_name", "avatar", "role", "is_active", "email_verified",
     "created_at", "updated_at"]

  /** Under either driver, the names in the INSERT's text: the table, then the columns in the order of their values. */
  lemma InsertReadsBack(p: bool)
    ensures Names(Render(p, INSERT)) == ["users"] + INSERT_NAMES
  {
    var args := Render(p, ArgPieces(1, 9));
    ArgsAreQuiet(p, 1, 9);
    RenderedBetween(p, INSERT_HEAD, ArgPieces(1, 9), ", NOW(), NOW())");
    InsertTextReadsBack(args + ", NOW(), NOW())", args);
    InsertNames();
  }

  lemma InsertTextReadsBack(rest: string, args: string)
    requires Quiet(args) && rest == args + ", NOW(), NOW())"
    ensures Names(INSERT_HEAD + rest) == ["users"] + NamesOf(INSERT_COLUMNS)
  {
    InsertTexts();
    InsertEndsQuietly(args);
    Assoc("INSERT INTO users (" + NameList(INSERT_COLUMNS), ") VALUES (", rest);
    TableThenColumns("INSERT INTO ", "users", " (", INSERT_COLUMNS, ") VALUES (" + rest);
  }

  lemma {:induction false} NameOfAt(columns: seq<Column>, k: nat)
    requires k < |columns|
    ensures |NamesOf(columns)| == |columns| && NamesOf(columns)[k] == Name(columns[k])
  {
    if k > 0 {
      NameOfAt(columns[1..], k - 1);
    } else if |columns| > 1 {
      NameOfAt(columns[1..], 0);
    }
  }

  lemma InsertNameAt(k: nat)
    requires k < 11
    ensures Name(INSERT_COLUMNS[k]) == INSERT_NAMES[k]
  {
  }

  lemma InsertNames()
    ensures NamesOf(INSERT_COLUMNS) == INSERT_NAMES
  {
    NameOfAt(INSERT_COLUMNS, 0);
    forall k | 0 <= k < 11 ensures NamesOf(INSERT_COLUMNS)[k] == INSERT_NAMES[k] {
      NameOfAt(INSERT_COLUMNS, k);
      InsertNameAt(k);
    }
  }

  /** Length and first letter tell the columns apart. */
  lemma NameShape(c: Column)
    ensures var w := Name(c);
            match c
            case Id => |w| == 2
            case Username => |w| == 8 && w[0] == 'u'
            case Email => |w| == 5
            case Password => |w| == 8 && w[0] == 'p'
            case FullName => |w| == 9 && w[0] == 'f'
            case Avatar => |w| == 6
            case Role => |w| == 4
            case IsActive => |w| == 9 && w[0] == 'i'
            case EmailVerified => |w| == 14
            case CreatedAt => |w| == 10 && w[0] == 'c'
            case UpdatedAt => |w| == 10 && w[0] == 'u'
  {
  }

  lemma NamesAreDistinct(c: Column, d: Column)
    ensures Name(c) == Name(d) <==> c == d
  {
    NameShape(c);
    NameShape(d);
  }

  /** The search names the column before each pattern, and the lookup the id. */
  lemma LookupsReadBack(p: bool)
    ensures Bindings(p, Render(p, Labelled(SEARCHED, 1)), "", 1) == [("username", 1), ("email", 2), ("full_name", 3)]
    ensures Bindings(p, Render(p, Labelled(BY_ID, 1)), "", 1) == [("id", 1)]
  {
    SearchClausesNameColumns();
    LabelledReadsBack(p, SEARCHED, 1, "");
    LabelledReadsBack(p, BY_ID, 1, "");
    PairedAt(SEARCHED, 1, 0);
    PairedAt(SEARCHED, 1, 1);
    PairedAt(SEARCHED, 1, 2);
    PairedAt(BY_ID, 1, 0);
  }

  lemma LowerCaseNext()
    ensures EndsOutsideName("WHERE ") && EndsOutsideName(" OR ") && Quiet(" LIKE ") && Quiet(" = ")
    ensures PlainLabel("WHERE ") && PlainLabel(" OR ") && Plain(" LIKE ") && Plain(" = ")
  {
  }

  lemma SearchClausesNameColumns()
    ensures forall c | c in SEARCHED :: NamesItsColumn(c)
    ensures forall c | c in BY_ID :: NamesItsColumn(c)
  {
    LowerCaseNext();
  }

  /** The UPDATE is of the users table. */
  lemma UpdateNamesTheTable(p: bool)
    ensures "UPDATE users SET " <= Render(p, UPDATE)
  {
    var clauses := Assign(UPDATE_COLUMNS) + [UPDATE_WHERE];
    assert clauses[0].before == "UPDATE users SET ";
    assert UPDATE == [Lit(ClauseText(clauses[0])), Hole(1)] + Labelled(clauses[1..], 2);
    assert clauses[0].before <= ClauseText(clauses[0]);
    assert ClauseText(clauses[0]) <= Render(p, UPDATE);
  }

  lemma RenderTwo(p: bool, a: string, i: nat, b: string, j: nat)
    ensures Render(p, [Lit(a), Hole(i), Lit(b), Hole(j)]) == a + (Arg(p, i) + (b + Arg(p, j)))
  {
    var pieces := [Lit(a), Hole(i), Lit(b), Hole(j)];
    assert pieces[1..] == [Hole(i), Lit(b), Hole(j)] && pieces[2..] == [Lit(b), Hole(j)] && pieces[3..] == [Hole(j)];
    assert pieces[1..][1..] == pieces[2..] && pieces[2..][1..] == pieces[3..] && pieces[3..][1..] == [];
    assert Render(p, pieces[3..]) == Arg(p, j) + Render(p, []) == Arg(p, j);
    assert Render(p, pieces[2..]) == b + Arg(p, j);
    assert Render(p, pieces[1..]) == Arg(p, i) + (b + Arg(p, j));
  }

  lemma PagedPieces()
    ensures Labelled(PAGED, 1) == [Lit("ORDER BY created_at DESC LIMIT "), Hole(1), Lit(" OFFSET "), Hole(2)]
  {
    var limit, offset := PAGED[0], PAGED[1];
    assert PAGED[1..] == [offset] && [offset][1..] == [];
    assert ClauseText(limit) == "ORDER BY created_at DESC LIMIT ";
    assert ClauseText(offset) == " OFFSET ";
    assert Labelled([offset], 2) == [Lit(ClauseText(offset)), Hole(2)] + Labelled([], 3);
  }

  /** The end of the paged select, as either driver gets it. */
  lemma PagedSelectText(p: bool)
    ensures Render(p, Labelled(PAGED, 1)) ==
            "ORDER BY created_at DESC LIMIT " + ((if p then "$1" else "?") + (" OFFSET " + if p then "$2" else "?"))
  {
    PagedPieces();
    RenderTwo(p, "ORDER BY created_at DESC LIMIT ", 1, " OFFSET ", 2);
  }
}
