/** The service's SQL statements, written through the dialect from their column lists, and the rows they touch:
    binding the argument lists of the repository methods gives, under both drivers, the row that Database's table
    operations write. */
module Statements {
  import opened Options
  import opened Domain
  import opened Dialect
  import Database
  import Pagination

  /** A column value: a bind argument, or NOW(). */
  datatype Value = Text(s: string) | Nullable(o: Option<string>) | Flag(b: bool) | Number(n: int) | Time(at: nat)

  datatype Column =
    | Id | Username | Email | Password | FullName | Avatar | Role | IsActive | EmailVerified | CreatedAt | UpdatedAt

  function Name(c: Column): string {
    match c
    case Id => "id"
    case Username => "username"
    case Email => "email"
    case Password => "password"
    case FullName => "full_name"
    case Avatar => "avatar"
    case Role => "role"
    case IsActive => "is_active"
    case EmailVerified => "email_verified"
    case CreatedAt => "created_at"
    case UpdatedAt => "updated_at"
  }

  /** What a row holds in a column. */
  function Field(row: User, c: Column): Value {
    match c
    case Id => Text(row.id)
    case Username => Text(row.username)
    case Email => Text(row.email)
    case Password => Text(row.password)
    case FullName => Text(row.fullName)
    case Avatar => Nullable(row.avatar)
    case Role => Nullable(row.role)
    case IsActive => Flag(row.isActive)
    case EmailVerified => Flag(row.emailVerified)
    case CreatedAt => Time(row.createdAt)
    case UpdatedAt => Time(row.updatedAt)
  }

  /** What a placeholder stands for. */
  datatype Slot = Col(column: Column) | Limit | Offset

  function SlotText(slot: Slot): string {
    match slot
    case Col(c) => Name(c)
    case Limit => "LIMIT"
    case Offset => "OFFSET"
  }

  /** A stretch of statement text that names a slot and ends in its placeholder. */
  datatype Clause = Clause(before: string, slot: Slot, after: string)

  function ClauseText(c: Clause): string {
    c.before + SlotText(c.slot) + c.after
  }

  /** Clauses one after the other, their placeholders numbered from `first`. */
  function Labelled(clauses: seq<Clause>, first: nat): seq<Piece> {
    if clauses == [] then [] else [Lit(ClauseText(clauses[0])), Hole(first)] + Labelled(clauses[1..], first + 1)
  }

  function NameList(columns: seq<Column>): string {
    if columns == [] then "" else if |columns| == 1 then Name(columns[0])
        else Name(columns[0]) + ", " + NameList(columns[1..])
  }

  /** The INSERT's columns; the last two get NOW(). */
  const INSERT_COLUMNS: seq<Column> :=
    [Id, Username, Email, Password, FullName, Avatar, Role, IsActive, EmailVerified, CreatedAt, UpdatedAt]

  const INSERT_HEAD: string := "INSERT INTO users (" + NameList(INSERT_COLUMNS) + ") VALUES ("

  const INSERT: seq<Piece> := [Lit(INSERT_HEAD)] + ArgPieces(1, 9) + [Lit(", NOW(), NOW())")]

  /** The UPDATE's bound columns, and those set to NOW(). */
  const UPDATE_COLUMNS: seq<Column> := [Username, Email, FullName, Avatar, Role, IsActive, EmailVerified]
  const UPDATE_NOW: seq<Column> := [UpdatedAt]

  const UPDATE_WHERE: Clause := Clause(NowText(UPDATE_NOW) + " WHERE ", Col(Id), " = ")

  function Assign(columns: seq<Column>): seq<Clause> {
    seq(|columns|, i requires 0 <= i < |columns| => Clause(if i == 0 then "UPDATE users SET "
        else ", ", Col(columns[i]), " = "))
  }

  function NowText(columns: seq<Column>): string {
    if columns == [] then "" else ", " + Name(columns[0]) + " = NOW()" + NowText(columns[1..])
  }

  const UPDATE: seq<Piece> := Labelled(Assign(UPDATE_COLUMNS) + [UPDATE_WHERE], 1)

  const PAGED: seq<Clause> := [Clause("ORDER BY created_at DESC ", Limit, " "), Clause(" ", Offset, " ")]

  const SEARCHED: seq<Clause> :=
    [Clause("WHERE ", Col(Username), " LIKE "), Clause(" OR ", Col(Email), " LIKE "),
        Clause(" OR ", Col(FullName), " LIKE ")]

  const SEARCH: seq<Piece> := Labelled(SEARCHED, 1) + [Lit(" ORDER BY created_at DESC")]

  const BY_ID: seq<Clause> := [Clause("WHERE ", Col(Id), " = ")]

  /** ExecContext's arguments, in source order. */
  function InsertArgs(u: User): seq<Value> {
    [Text(u.id), Text(u.username), Text(u.email), Text(u.password), Text(u.fullName),
     Nullable(u.avatar), Nullable(u.role), Flag(u.isActive), Flag(u.emailVerified)]
  }

  function UpdateArgs(u: User): seq<Value> {
    [Text(u.username), Text(u.email), Text(u.fullName),
     Nullable(u.avatar), Nullable(u.role), Flag(u.isActive), Flag(u.emailVerified), Text(u.id)]
  }

  /** The values that a driver binds for a list of parameter positions. */
  function Bind(ps: seq<nat>, args: seq<Value>): seq<Value> {
    seq(|ps|, k requires 0 <= k < |ps| => if 1 <= ps[k] <= |args| then args[ps[k] - 1] else Nullable(None))
  }

  /** The value that each placeholder of the statement receives, in text order. */
  function Bound(postgres: bool, pieces: seq<Piece>, args: seq<Value>): seq<Value> {
    Bind(Positions(postgres, Render(postgres, pieces)), args)
  }

  lemma BindUpFrom(args: seq<Value>)
    ensures Bind(UpFrom(1, |args|), args) == args
  {
  }

  lemma PositionsInOrder(postgres: bool, pieces: seq<Piece>, count: nat)
    requires Clean(pieces) && Holes(pieces) == UpFrom(1, count)
    ensures Positions(postgres, Render(postgres, pieces)) == UpFrom(1, count)
  {
    if postgres {
      NumberedReadsBack(pieces);
    } else {
      OrderedCounts(pieces, 1);
    }
  }

  /** A statement numbered from left to right, with one placeholder per argument, binds the arguments in order. */
  lemma BindsInOrder(postgres: bool, pieces: seq<Piece>, args: seq<Value>)
    requires Clean(pieces) && Holes(pieces) == UpFrom(1, |args|)
    ensures Bound(postgres, pieces, args) == args
  {
    PositionsInOrder(postgres, pieces, |args|);
    BindUpFrom(args);
  }

  lemma {:induction false} HolesOfSum(a: seq<Piece>, b: seq<Piece>)
    ensures Holes(a + b) == Holes(a) + Holes(b)
  {
    if a == [] {
      assert a + b == b;
    } else {
      HolesOfSum(a[1..], b);
      var first := if a[0].Hole? then [a[0].pos] else [];
      assert (a + b)[1..] == a[1..] + b;
      assert Holes(a + b) == first + Holes(a[1..] + b);
      assert first + (Holes(a[1..]) + Holes(b)) == (first + Holes(a[1..])) + Holes(b);
    }
  }

  lemma {:induction false} CleanSum(a: seq<Piece>, b: seq<Piece>)
    requires Clean(a) && Clean(b)
    requires a == [] || a[|a| - 1].Lit? || b == [] || (b[0].Lit? && b[0].text != "" && !IsDigit(b[0].text[0]))
    ensures Clean(a + b)
  {
    if a == [] {
      assert a + b == b;
    } else {
      CleanSum(a[1..], b);
      assert (a + b)[1..] == a[1..] + b;
    }
  }

  /** Labelled statements are clean and numbered from left to right. */
  predicate PlainLabel(text: string) {
    Plain(text) && text != "" && !IsDigit(text[0])
  }

  predicate PlainClause(c: Clause) {
    PlainLabel(c.before) && Plain(c.after)
  }

  lemma NamesArePlain(c: Column)
    ensures Plain(Name(c))
  {
  }

  lemma SlotsArePlain(slot: Slot)
    ensures Plain(SlotText(slot))
  {
    if slot.Col? {
      NamesArePlain(slot.column);
    }
  }

  lemma PlainSum(a: string, b: string)
    requires Plain(a) && Plain(b)
    ensures Plain(a + b)
  {
  }

  lemma PlainClauseText(c: Clause)
    requires PlainClause(c)
    ensures PlainLabel(ClauseText(c))
  {
    SlotsArePlain(c.slot);
    PlainSum(c.before, SlotText(c.slot));
    PlainSum(c.before + SlotText(c.slot), c.after);
  }

  lemma {:induction false} NameListIsPlain(columns: seq<Column>)
    ensures Plain(NameList(columns))
  {
    if columns != [] {
      NamesArePlain(columns[0]);
      if |columns| > 1 {
        NameListIsPlain(columns[1..]);
        PlainSum(Name(columns[0]), ", ");
        PlainSum(Name(columns[0]) + ", ", NameList(columns[1..]));
      }
    }
  }

  /** Labelled statements are clean and numbered from left to right. */
  lemma {:induction false} LabelledIsNumbered(clauses: seq<Clause>, first: nat)
    requires forall c | c in clauses :: PlainClause(c)
    ensures Clean(Labelled(clauses, first)) && Holes(Labelled(clauses, first)) == UpFrom(first, |clauses|)
    decreases |clauses|
  {
    if clauses != [] {
      var rest, pieces := Labelled(clauses[1..], first + 1), Labelled(clauses, first);
      assert forall c | c in clauses[1..] :: c in clauses;
      LabelledIsNumbered(clauses[1..], first + 1);
      assert pieces[1..] == [Hole(first)] + rest && pieces[1..][1..] == rest;
      assert clauses[0] in clauses;
      PlainClauseText(clauses[0]);
      if |clauses| > 1 {
        assert clauses[1] in clauses && rest[0] == Lit(ClauseText(clauses[1]));
        PlainClauseText(clauses[1]);
      }
      assert Clean(pieces[1..]);
      UpFromFirst(first, |clauses|);
    }
  }

  lemma LabelledThenLit(clauses: seq<Clause>, tail: string)
    requires (forall c | c in clauses :: PlainClause(c)) && PlainLabel(tail)
    ensures var pieces := Labelled(clauses, 1) + [Lit(tail)]; Clean(pieces) && Holes(pieces) == UpFrom(1, |clauses|)
  {
    LabelledIsNumbered(clauses, 1);
    HolesOfSum(Labelled(clauses, 1), [Lit(tail)]);
    assert [Lit(tail)][1..] == [];
    CleanSum(Labelled(clauses, 1), [Lit(tail)]);
  }

  /** A labelled statement binds the k-th argument to the slot that its k-th clause names. */
  lemma ClausesBind(postgres: bool, clauses: seq<Clause>, args: seq<Value>)
    requires (forall c | c in clauses :: PlainClause(c)) && |args| == |clauses|
    ensures Bound(postgres, Labelled(clauses, 1), args) == args
  {
    LabelledIsNumbered(clauses, 1);
    BindsInOrder(postgres, Labelled(clauses, 1), args);
  }

  lemma ArgsInPlace(head: string, count: nat, tail: string)
    requires Plain(head) && PlainLabel(tail)
    ensures var pieces := [Lit(head)] + ArgPieces(1, count) + [Lit(tail)];
        Clean(pieces) && Holes(pieces) == UpFrom(1, count)
  {
    ArgHoles(1, count);
    ArgsAreClean(1, count);
    HolesOfSum([Lit(head)] + ArgPieces(1, count), [Lit(tail)]);
    HolesOfSum([Lit(head)], ArgPieces(1, count));
    CleanSum([Lit(head)], ArgPieces(1, count));
    CleanSum([Lit(head)] + ArgPieces(1, count), [Lit(tail)]);
  }

  /** Each listed column of the row holds the value listed with it. */
  ghost predicate Holds(row: User, columns: seq<Column>, values: seq<Value>)
    requires |columns| == |values|
  {
    forall k | 0 <= k < |columns| :: Field(row, columns[k]) == values[k]
  }

  ghost predicate SameOutside(row: User, row': User, columns: seq<Column>) {
    forall c: Column | c !in columns :: Field(row', c) == Field(row, c)
  }

  lemma InsertTextIsPlain()
    ensures Plain("INSERT INTO users (") && Plain(") VALUES (")
  {
  }

  lemma InsertHeadIsPlain()
    ensures Plain(INSERT_HEAD)
  {
    InsertTextIsPlain();
    NameListIsPlain(INSERT_COLUMNS);
    PlainSum("INSERT INTO users (", NameList(INSERT_COLUMNS));
    PlainSum("INSERT INTO users (" + NameList(INSERT_COLUMNS), ") VALUES (");
  }

  lemma InsertTailIsPlain()
    ensures PlainLabel(", NOW(), NOW())")
  {
  }

  lemma InsertBinds(postgres: bool, u: User)
    ensures Bound(postgres, INSERT, InsertArgs(u)) == InsertArgs(u)
  {
    InsertHeadIsPlain();
    InsertTailIsPlain();
    ArgsInPlace(INSERT_HEAD, 9, ", NOW(), NOW())");
    BindsInOrder(postgres, INSERT, InsertArgs(u));
  }

  lemma InsertedRowHolds(u: User, now: nat)
    ensures Holds(Database.Inserted(u, now), INSERT_COLUMNS, InsertArgs(u) + [Time(now), Time(now)])
  {
  }

  lemma InsertedRowIsDetermined(u: User, now: nat, row: User)
    requires Holds(row, INSERT_COLUMNS, InsertArgs(u) + [Time(now), Time(now)])
    ensures row == Database.Inserted(u, now)
  {
    var columns, values := INSERT_COLUMNS, InsertArgs(u) + [Time(now), Time(now)];
    assert Field(row, columns[0]) == values[0] && Field(row, columns[1]) == values[1] &&
        Field(row, columns[2]) == values[2];
    assert Field(row, columns[3]) == values[3] && Field(row, columns[4]) == values[4] &&
        Field(row, columns[5]) == values[5];
    assert Field(row, columns[6]) == values[6] && Field(row, columns[7]) == values[7] &&
        Field(row, columns[8]) == values[8];
    assert Field(row, columns[9]) == values[9] && Field(row, columns[10]) == values[10];
  }

  /** Under either driver, the one row that holds in each column of AddUser's statement the value the driver puts there,
      NOW() in the last two, is the row that the table specification inserts. */
  lemma InsertWritesTheUser(postgres: bool, u: User, now: nat)
    ensures var values := Bound(postgres, INSERT, InsertArgs(u)) + [Time(now), Time(now)];
            && |values| == |INSERT_COLUMNS|
            && forall row :: Holds(row, INSERT_COLUMNS, values) <==> row == Database.Inserted(u, now)
  {
    InsertBinds(postgres, u);
    forall row ensures Holds(row, INSERT_COLUMNS, InsertArgs(u) + [Time(now), Time(now)]) <==>
        row == Database.Inserted(u, now) {
      InsertedRowHolds(u, now);
      if Holds(row, INSERT_COLUMNS, InsertArgs(u) + [Time(now), Time(now)]) {
        InsertedRowIsDetermined(u, now, row);
      }
    }
  }

  lemma AssignIsPlain(columns: seq<Column>)
    ensures forall c | c in Assign(columns) :: PlainClause(c)
  {
    UpdateTextIsPlain();
  }

  lemma UpdateTextIsPlain()
    ensures PlainLabel("UPDATE users SET ") && PlainLabel(", ") && Plain(" = ")
  {
  }

  lemma WhereIsPlain()
    ensures PlainClause(UPDATE_WHERE)
  {
    var name := Name(UpdatedAt);
    NamesArePlain(UpdatedAt);
    assert NowText(UPDATE_NOW[1..]) == "";
    assert NowText(UPDATE_NOW) == ", " + name + " = NOW()" + "";
    PlainSum(", ", name);
    PlainSum(", " + name, " = NOW()");
    PlainSum(", " + name + " = NOW()", "");
    PlainSum(NowText(UPDATE_NOW), " WHERE ");
  }

  lemma UpdateBinds(postgres: bool, u: User)
    ensures Bound(postgres, UPDATE, UpdateArgs(u)) == UpdateArgs(u)
  {
    AssignIsPlain(UPDATE_COLUMNS);
    WhereIsPlain();
    ClausesBind(postgres, Assign(UPDATE_COLUMNS) + [UPDATE_WHERE], UpdateArgs(u));
  }

  /** The columns that the UPDATE assigns, and the values they get. */
  function Assigned(): (columns: seq<Column>)
    ensures columns == [Username, Email, FullName, Avatar, Role, IsActive, EmailVerified, UpdatedAt]
  {
    UPDATE_COLUMNS + UPDATE_NOW
  }

  function AssignedValues(vs: seq<Value>, now: nat): (values: seq<Value>)
    requires |vs| == |UPDATE_COLUMNS| + 1
    ensures |values| == |Assigned()|
  {
    vs[..|UPDATE_COLUMNS|] + [Time(now)]
  }

  /** `row'` is `row` after the statement. */
  ghost predicate Becomes(row: User, row': User, vs: seq<Value>, now: nat)
    requires |vs| == |UPDATE_COLUMNS| + 1
  {
    Holds(row', Assigned(), AssignedValues(vs, now)) && SameOutside(row, row', Assigned())
  }

  lemma UpdatedRowHolds(u: User, now: nat, row: User)
    ensures Becomes(row, Database.Updated(row, u, now), UpdateArgs(u), now)
  {
  }

  lemma TextColumns(u: User, now: nat, row': User)
    requires Holds(row', Assigned(), AssignedValues(UpdateArgs(u), now))
    ensures row'.username == u.username && row'.email == u.email && row'.fullName == u.fullName &&
        row'.avatar == u.avatar
  {
    var columns, values := Assigned(), AssignedValues(UpdateArgs(u), now);
    assert Field(row', columns[0]) == values[0] && Field(row', columns[1]) == values[1];
    assert Field(row', columns[2]) == values[2] && Field(row', columns[3]) == values[3];
  }

  lemma FlagColumns(u: User, now: nat, row': User)
    requires Holds(row', Assigned(), AssignedValues(UpdateArgs(u), now))
    ensures row'.role == u.role && row'.isActive == u.isActive && row'.emailVerified == u.emailVerified &&
        row'.updatedAt == now
  {
    var columns, values := Assigned(), AssignedValues(UpdateArgs(u), now);
    assert Field(row', columns[4]) == values[4] && Field(row', columns[5]) == values[5];
    assert Field(row', columns[6]) == values[6] && Field(row', columns[7]) == values[7];
  }

  lemma UpdatedRowIsDetermined(u: User, now: nat, row: User, row': User)
    requires Becomes(row, row', UpdateArgs(u), now)
    ensures row' == Database.Updated(row, u, now)
  {
    TextColumns(u, now, row');
    FlagColumns(u, now, row');
    UntouchedColumns(row, row');
  }

  lemma UntouchedColumns(row: User, row': User)
    requires SameOutside(row, row', Assigned())
    ensures row'.id == row.id && row'.password == row.password && row'.createdAt == row.createdAt
  {
    assert Id !in Assigned() && Password !in Assigned() && CreatedAt !in Assigned();
    assert Field(row', Id) == Field(row, Id) && Field(row', Password) == Field(row, Password);
    assert Field(row', CreatedAt) == Field(row, CreatedAt);
  }

  /** Under either driver, UpdateUser's statement selects the user's row by the column its WHERE names, and the
      one row that holds the bound values and NOW() in the columns it names, and the old values elsewhere, is the
      specification's. */
  lemma UpdateWritesTheUser(postgres: bool, row: User, u: User, now: nat)
    ensures var vs := Bound(postgres, UPDATE, UpdateArgs(u));
            && |vs| == |UPDATE_COLUMNS| + 1
            && (Field(row, UPDATE_WHERE.slot.column) == vs[|UPDATE_COLUMNS|] <==> row.id == u.id)
            && forall row' :: Becomes(row, row', vs, now) <==> row' == Database.Updated(row, u, now)
  {
    UpdateBinds(postgres, u);
    UpdatedRowHolds(u, now, row);
    forall row' | Becomes(row, row', UpdateArgs(u), now) ensures row' == Database.Updated(row, u, now) {
      UpdatedRowIsDetermined(u, now, row, row');
    }
  }

  /** The value bound to a slot. */
  function At(clauses: seq<Clause>, vs: seq<Value>, slot: Slot): Value
    requires |vs| == |clauses|
  {
    if clauses == [] then Nullable(None) else if clauses[0].slot == slot then vs[0] else At(clauses[1..], vs[1..], slot)
  }

  lemma PagedHeadIsPlain()
    ensures PlainLabel("ORDER BY created_at DESC ")
  {
  }

  lemma PagedTextIsPlain()
    ensures forall c | c in PAGED :: PlainClause(c)
  {
    PagedHeadIsPlain();
    assert PlainClause(PAGED[0]);
    assert PlainClause(PAGED[1]);
  }

  /** Under either driver the rows that LIMIT and OFFSET cut out are the requested page. */
  lemma PagedSelectBinds(postgres: bool, listing: seq<User>, page: int, size: int)
    requires page >= 1 && size >= 1
    ensures var vs := Bound(postgres, Labelled(PAGED, 1), [Number(size), Number((page - 1) * size)]);
            && |vs| == |PAGED|
            && var limit, offset := At(PAGED, vs, Limit), At(PAGED, vs, Offset);
               && limit.Number? && offset.Number? && limit.n >= 0 && offset.n >= 0
               && Pagination.Window(listing, offset.n, limit.n) == Pagination.Page(listing, page, size)
  {
    PagedTextIsPlain();
    ClausesBind(postgres, PAGED, [Number(size), Number((page - 1) * size)]);
    Pagination.OffsetIsNatural(page, size);
  }

  lemma SearchTextIsPlain()
    ensures forall c | c in SEARCHED :: PlainClause(c)
  {
    assert PlainLabel("WHERE ") && PlainLabel(" OR ") && Plain(" LIKE ");
  }

  lemma SearchTailIsPlain()
    ensures PlainLabel(" ORDER BY created_at DESC")
  {
  }

  /** The search binds its pattern to each of the three columns it names. */
  lemma SearchBinds(postgres: bool, pattern: string)
    ensures var vs := Bound(postgres, SEARCH, [Text(pattern), Text(pattern), Text(pattern)]);
            && |vs| == |SEARCHED|
            && At(SEARCHED, vs, Col(Username)) == At(SEARCHED, vs, Col(Email)) == At(SEARCHED, vs, Col(FullName)) ==
                Text(pattern)
  {
    SearchTextIsPlain();
    SearchTailIsPlain();
    LabelledThenLit(SEARCHED, " ORDER BY created_at DESC");
    var vs := [Text(pattern), Text(pattern), Text(pattern)];
    BindsInOrder(postgres, SEARCH, vs);
    assert SEARCHED[1..][1..] == [SEARCHED[2]] && vs[1..][1..] == [vs[2]];
    assert At(SEARCHED[1..], vs[1..], Col(Email)) == vs[1];
    assert At(SEARCHED[1..], vs[1..], Col(FullName)) == At(SEARCHED[1..][1..], vs[1..][1..], Col(FullName)) == vs[2];
  }

  /** The select and the delete by id pick exactly the rows with that id. */
  lemma LookupBinds(postgres: bool, id: string, row: User)
    ensures var vs := Bound(postgres, Labelled(BY_ID, 1), [Text(id)]);
            |vs| == 1 && (Field(row, BY_ID[0].slot.column) == vs[0] <==> row.id == id)
  {
    assert PlainLabel("WHERE ") && Plain(" = ");
    ClausesBind(postgres, BY_ID, [Text(id)]);
  }
}
