/** The column schema of a query (`get_column_schema_from_query` in `sqlserver_adapter.py`): described when it
    leads with a CTE, else executed. */
module ColumnSchema {
  import opened Text
  import opened RowCounting
  import opened Transactions
  import opened Draining

  type Column = (string, string)

  /** `_SQL_COMMENT.sub("", sql)`: block comments and whole line comments, wherever they stand. */
  function WithoutComments(sql: string): string
    decreases |sql|
  {
    if sql == [] then []
    else if OpensBlock(sql) && Find(sql[2..], "*/").Some? then
      WithoutComments(sql[2..][Find(sql[2..], "*/").value + 2..])
    else if OpensLine(sql) && Find(sql[2..], "\n").Some? then
      WithoutComments(sql[2..][Find(sql[2..], "\n").value + 1..])
    else [sql[0]] + WithoutComments(sql[1..])
  }

  // ------------------------------------------------------------ reading comments

  /** A text as the pattern reads it: comments, and the characters in between. */
  datatype Chunk = Kept(c: char) | BlockComment(body: string) | LineComment(body: string)

  function ChunkText(chunk: Chunk): string {
    match chunk
    case Kept(c) => [c]
    case BlockComment(body) => "/*" + body + "*/"
    case LineComment(body) => "--" + body + "\n"
  }

  function ChunksText(chunks: seq<Chunk>): string {
    if chunks == [] then "" else ChunkText(chunks[0]) + ChunksText(chunks[1..])
  }

  function KeptText(chunks: seq<Chunk>): string {
    if chunks == [] then ""
    else (if chunks[0].Kept? then [chunks[0].c] else "") + KeptText(chunks[1..])
  }

  /** A whole comment stands at the front. */
  ghost predicate BeginsComment(t: string) {
    || ("/*" <= t && exists j: nat :: Occurs(t[2..], "*/", j))
    || ("--" <= t && '\n' in t[2..])
  }

  /** A comment ends at the first place it can, and a character is kept only where no comment begins. */
  ghost predicate Reads(chunk: Chunk, text: string) {
    match chunk
    case Kept(c) => !BeginsComment(text)
    case BlockComment(body) => forall j: nat :: j < |body| ==> !Occurs(body + "*/", "*/", j)
    case LineComment(body) => '\n' !in body
  }

  ghost predicate ReadsComments(chunks: seq<Chunk>) {
    chunks == [] || (ReadsComments(chunks[1..]) && Reads(chunks[0], ChunksText(chunks)))
  }

  lemma Opening(t: string)
    ensures OpensBlock(t) <==> "/*" <= t
    ensures OpensLine(t) <==> "--" <= t
  {
  }

  lemma NewlineOccurs(t: string, j: nat)
    ensures Occurs(t, "\n", j) <==> j < |t| && t[j] == '\n'
  {
  }

  lemma LineEnds(t: string)
    ensures Find(t, "\n").Some? <==> '\n' in t
    ensures Find(t, "\n").Some? ==> '\n' !in t[..Find(t, "\n").value] && t[Find(t, "\n").value] == '\n'
  {
    hide Find, Occurs;
    forall j: nat {
      NewlineOccurs(t, j);
    }
  }

  /** How the pattern's substitution goes on at the front of a text. */
  lemma WithoutFirst(sql: string)
    requires sql != []
    ensures !BeginsComment(sql) ==> WithoutComments(sql) == [sql[0]] + WithoutComments(sql[1..])
  {
    hide Find;
    Opening(sql);
    if |sql| >= 2 {
      LineEnds(sql[2..]);
    }
  }

  lemma WithoutBlock(body: string, rest: string)
    requires forall j: nat :: j < |body| ==> !Occurs(body + "*/", "*/", j)
    ensures WithoutComments("/*" + body + "*/" + rest) == WithoutComments(rest)
  {
    hide Find, Occurs;
    var t := body + "*/" + rest;
    var sql := "/*" + body + "*/" + rest;
    assert sql[2..] == t && OpensBlock(sql);
    assert Occurs(t, "*/", |body|) by { OccursAt(body, "*/", rest); }
    forall j: nat | j < |body| ensures !Occurs(t, "*/", j) {
      OccursWithin(body + "*/", rest, "*/", j);
    }
    FindIs(t, "*/", |body|);
    assert t[|body| + 2..] == rest;
  }

  lemma OccursAt(before: string, pattern: string, rest: string)
    ensures Occurs(before + pattern + rest, pattern, |before|)
  {
  }

  lemma OccursWithin(t: string, rest: string, pattern: string, j: nat)
    requires j + |pattern| <= |t|
    ensures Occurs(t + rest, pattern, j) <==> Occurs(t, pattern, j)
  {
  }

  lemma WithoutLine(body: string, rest: string)
    requires '\n' !in body
    ensures WithoutComments("--" + body + "\n" + rest) == WithoutComments(rest)
  {
    hide Find, Occurs;
    var t := body + "\n" + rest;
    var sql := "--" + body + "\n" + rest;
    assert sql[2..] == t && OpensLine(sql) && !OpensBlock(sql);
    NewlineOccurs(t, |body|);
    forall j: nat | j < |body| ensures !Occurs(t, "\n", j) {
      NewlineOccurs(t, j);
      assert t[j] == body[j];
    }
    FindIs(t, "\n", |body|);
    assert t[|body| + 1..] == rest;
  }

  lemma WithoutChunk(chunk: Chunk, rest: string)
    requires Reads(chunk, ChunkText(chunk) + rest)
    ensures WithoutComments(ChunkText(chunk) + rest)
         == (if chunk.Kept? then [chunk.c] else "") + WithoutComments(rest)
  {
    hide WithoutComments, BeginsComment;
    match chunk {
      case Kept(c) =>
        WithoutFirst([c] + rest);
        assert ([c] + rest)[1..] == rest;
      case BlockComment(body) =>
        WithoutBlock(body, rest);
      case LineComment(body) =>
        WithoutLine(body, rest);
    }
  }

  /** Removing the comments keeps exactly the characters outside them, however the text is taken apart. */
  lemma {:induction false} KeepsOutside(chunks: seq<Chunk>)
    requires ReadsComments(chunks)
    ensures WithoutComments(ChunksText(chunks)) == KeptText(chunks)
  {
    hide WithoutComments, ChunkText, Reads;
    if chunks == [] {
      NothingWithout();
    } else {
      KeepsOutside(chunks[1..]);
      WithoutChunk(chunks[0], ChunksText(chunks[1..]));
    }
  }

  lemma NothingWithout()
    ensures WithoutComments("") == ""
  {
  }

  /** And every text can be taken apart so. */
  lemma {:induction false} TakenApart(sql: string) returns (chunks: seq<Chunk>)
    ensures ReadsComments(chunks) && ChunksText(chunks) == sql
    decreases |sql|
  {
    hide ChunkText, Reads;
    chunks := [];
    if sql != "" {
      var first := FirstChunk(sql);
      var n := |ChunkText(first)|;
      var rest := TakenApart(sql[n..]);
      chunks := [first] + rest;
      assert chunks[1..] == rest;
      assert ChunkText(first) == sql[..n];
      assert ChunksText(chunks) == sql[..n] + sql[n..] == sql;
    }
  }

  lemma FirstChunk(sql: string) returns (first: Chunk)
    requires sql != ""
    ensures ChunkText(first) != "" && ChunkText(first) <= sql && Reads(first, sql)
  {
    hide Find;
    Opening(sql);
    if |sql| >= 2 {
      LineEnds(sql[2..]);
    }
    if OpensBlock(sql) && Find(sql[2..], "*/").Some? {
      first := FirstBlock(sql);
    } else if OpensLine(sql) && '\n' in sql[2..] {
      var e := Find(sql[2..], "\n").value;
      first := LineComment(sql[2..][..e]);
      assert sql[..e + 3] == ChunkText(first);
    } else {
      first := Kept(sql[0]);
    }
  }

  lemma FirstBlock(sql: string) returns (first: Chunk)
    requires OpensBlock(sql) && Find(sql[2..], "*/").Some?
    ensures first.BlockComment? && ChunkText(first) <= sql
    ensures forall j: nat :: j < |first.body| ==> !Occurs(first.body + "*/", "*/", j)
  {
    hide Find;
    var t, e := sql[2..], Find(sql[2..], "*/").value;
    first := BlockComment(t[..e]);
    assert t[e..e + 2] == "*/";
    assert t[..e] + "*/" == t[..e + 2];
    assert sql[..e + 4] == ChunkText(first);
    forall j: nat | j < e ensures !Occurs(t[..e] + "*/", "*/", j) {
      OccursWithin(t[..e + 2], t[e + 2..], "*/", j);
      assert t[..e + 2] + t[e + 2..] == t;
    }
  }

  predicate LeadsWithCte(sql: string) {
    "with" <= Lower(Strip(WithoutComments(sql)))
  }

  lemma LettersFold(c: char)
    ensures ToLower(c) == 'w' <==> c == 'w' || c == 'W'
    ensures ToLower(c) == 'i' <==> c == 'i' || c == 'I'
    ensures ToLower(c) == 't' <==> c == 't' || c == 'T'
    ensures ToLower(c) == 'h' <==> c == 'h' || c == 'H'
  {
  }

  /** A query leads with a CTE exactly when the text outside its comments, stripped, begins with the word in
      any case. */
  lemma LeadsWithCteIff(sql: string, chunks: seq<Chunk>)
    requires ReadsComments(chunks) && ChunksText(chunks) == sql
    ensures LeadsWithCte(sql)
            <==> var s := Strip(KeptText(chunks));
                 && |s| >= 4
                 && (s[0] == 'w' || s[0] == 'W') && (s[1] == 'i' || s[1] == 'I')
                 && (s[2] == 't' || s[2] == 'T') && (s[3] == 'h' || s[3] == 'H')
  {
    hide ToLower, Strip, WithoutComments, KeptText, ReadsComments;
    KeepsOutside(chunks);
    var s := Strip(KeptText(chunks));
    BeginsWithWith(s);
  }

  lemma BeginsWithWith(s: string)
    ensures "with" <= Lower(s)
            <==> && |s| >= 4
                 && (s[0] == 'w' || s[0] == 'W') && (s[1] == 'i' || s[1] == 'I')
                 && (s[2] == 't' || s[2] == 'T') && (s[3] == 'h' || s[3] == 'H')
  {
    hide ToLower;
    if |s| >= 4 {
      LettersFold(s[0]);
      LettersFold(s[1]);
      LettersFold(s[2]);
      LettersFold(s[3]);
      var l := Lower(s);
      if "with" <= l {
        assert l[0] == "with"[0] && l[1] == "with"[1] && l[2] == "with"[2] && l[3] == "with"[3];
      }
      if l[0] == 'w' && l[1] == 'i' && l[2] == 't' && l[3] == 'h' {
        assert l[..4] == "with";
      }
    }
  }

  /** What the type names of the server and of the driver mean to the adapter; None where it knows none. */
  datatype TypeNames = TypeNames(executed: string -> Option<string>, ofCode: string -> Option<string>)

  /** The first described column of that name, folded to lower case. */
  predicate IsField(description: seq<Described>, name: string, i: nat) {
    && i < |description| && Lower(description[i].name) == name
    && forall j :: 0 <= j < i ==> Lower(description[j].name) != name
  }

  /** The position of a name among the described ones, folded to lower case. */
  function FieldIndex(description: seq<Described>, name: string): (r: Option<nat>)
    ensures r.Some? ==> IsField(description, name, r.value)
    ensures r.None? ==> forall i :: 0 <= i < |description| ==> Lower(description[i].name) != name
  {
    if description == [] then None
    else if Lower(description[0].name) == name then Some(0)
    else
      var r := FieldIndex(description[1..], name);
      if r.None? then None else Some(r.value + 1)
  }

  /** Where a describe result keeps what is read from it. */
  datatype Shape = Shape(hidden: nat, name: nat, typeName: nat)

  function ShapeOf(description: seq<Described>): (r: Option<Shape>)
    ensures r.Some? ==>
              r.value.hidden < |description| && r.value.name < |description| && r.value.typeName < |description|
  {
    var hidden, name := FieldIndex(description, "is_hidden"), FieldIndex(description, "name");
    var typeName := FieldIndex(description, "system_type_name");
    if hidden.Some? && name.Some? && typeName.Some? then Some(Shape(hidden.value, name.value, typeName.value)) else None
  }

  predicate Truthy(cell: Cell): (r: bool)
    ensures r <==> cell != Null && cell != Flag(false) && cell != Text("")
  {
    match cell
    case Null => false
    case Flag(on) => on
    case Text(text) => text != ""
  }

  /** `str(value)`. */
  function StrOf(cell: Cell): (r: string)
    ensures cell.Text? ==> r == cell.text
  {
    match cell
    case Null => "None"
    case Flag(on) => if on then "True" else "False"
    case Text(text) => text
  }

  /** The text in front of the first parenthesis. */
  function UpToParenthesis(text: string): (r: string)
    ensures r <= text && '(' !in r && (r == text || text[|r|] == '(')
  {
    if text == [] || text[0] == '(' then [] else [text[0]] + UpToParenthesis(text[1..])
  }

  predicate Fits(row: Record, shape: Shape) {
    shape.hidden < |row| && shape.name < |row| && shape.typeName < |row|
  }

  /** One described row as a column; None when it has no name or no known type. */
  function ColumnOf(row: Record, shape: Shape, types: TypeNames): Option<Column>
    requires Fits(row, shape)
  {
    var executed := types.executed(Lower(Strip(UpToParenthesis(StrOf(row[shape.typeName])))));
    if executed.None? || row[shape.name].Null? then None else Some((StrOf(row[shape.name]), executed.value))
  }

  /** The columns of a describe, or None as soon as one visible column cannot be trusted. */
  function DescribedColumns(rows: seq<Record>, shape: Shape, types: TypeNames): Option<seq<Column>>
    requires forall i :: 0 <= i < |rows| ==> Fits(rows[i], shape)
  {
    if rows == [] then Some([])
    else
      assert Fits(rows[0], shape);
      if Truthy(rows[0][shape.hidden]) then DescribedColumns(rows[1..], shape, types)
      else
        var column, rest := ColumnOf(rows[0], shape, types), DescribedColumns(rows[1..], shape, types);
        if column.None? || rest.None? then None else Some([column.value] + rest.value)
  }

  /** Columns already found in front of those still to come. */
  function After(found: seq<Column>, rest: Option<seq<Column>>): Option<seq<Column>> {
    if rest.None? then None else Some(found + rest.value)
  }

  /** A cursor that reads to its end: single-set or able to advance, and no driver failure. */
  ghost predicate Reliable(cursor: Cursor)
    reads cursor
  {
    ValidSets(cursor.sets) && !cursor.hasFault && (cursor.supportsNextSet || |cursor.sets| == 1)
  }

  /** The cursor has a description and its rows can be fetched. */
  ghost predicate CanRead(cursor: Cursor)
    reads cursor
  {
    cursor.sets != [] && cursor.sets[0].description.Some? && !(cursor.hasFault && cursor.faultAfter <= 0)
  }

  /** What a describe result says, when it has the expected fields, at least one column and no column that
      cannot be trusted. */
  function Trusted(set0: ResultSet, types: TypeNames): Option<seq<Column>>
    requires ValidSet(set0) && set0.description.Some?
  {
    var shape := ShapeOf(set0.description.value);
    if shape.None? then None
    else
      var columns := DescribedColumns(set0.rows, shape.value, types);
      if columns == Some([]) then None else columns
  }

  // --------------------------------------------------------- what a describe says

  /** The row is not marked as hidden. */
  predicate Visible(row: Record, shape: Shape)
    requires Fits(row, shape)
  {
    row[shape.hidden] == Null || row[shape.hidden] == Flag(false) || row[shape.hidden] == Text("")
  }

  /** The described row is a column of the given name and type: its name cell is not null, and the adapter knows
      the type in front of the parenthesis of its type cell. */
  ghost predicate Describes(row: Record, shape: Shape, types: TypeNames, column: Column)
    requires Fits(row, shape)
  {
    && row[shape.name] != Null && column.0 == StrOf(row[shape.name])
    && types.executed(Lower(Strip(UpToParenthesis(StrOf(row[shape.typeName]))))) == Some(column.1)
  }

  /** The described row cannot be trusted: it has no name, or a type the adapter does not know. */
  ghost predicate Doubtful(row: Record, shape: Shape, types: TypeNames)
    requires Fits(row, shape)
  {
    row[shape.name] == Null || types.executed(Lower(Strip(UpToParenthesis(StrOf(row[shape.typeName]))))).None?
  }

  ghost predicate FieldsAt(description: seq<Described>, shape: Shape) {
    && IsField(description, "is_hidden", shape.hidden)
    && IsField(description, "name", shape.name)
    && IsField(description, "system_type_name", shape.typeName)
  }

  /** The columns are those of the visible rows, one for one and in order; `at` says where each comes from. */
  ghost predicate FromVisibleRows(columns: seq<Column>, rows: seq<Record>, shape: Shape, types: TypeNames, at: seq<nat>)
    requires forall i :: 0 <= i < |rows| ==> Fits(rows[i], shape)
  {
    && |columns| == |at|
    && (forall k, l :: 0 <= k < l < |at| ==> at[k] < at[l])
    && (forall i :: 0 <= i < |rows| ==> (i in at <==> Visible(rows[i], shape)))
    && (forall k :: 0 <= k < |at| ==> at[k] < |rows| && Describes(rows[at[k]], shape, types, columns[k]))
  }

  lemma {:induction false} DescribedFromRows(rows: seq<Record>, shape: Shape, types: TypeNames) returns (at: seq<nat>)
    requires forall i :: 0 <= i < |rows| ==> Fits(rows[i], shape)
    requires DescribedColumns(rows, shape, types).Some?
    ensures FromVisibleRows(DescribedColumns(rows, shape, types).value, rows, shape, types, at)
  {
    hide Describes, FromVisibleRows, ColumnOf;
    at := [];
    if rows == [] {
      NoRows(shape, types);
    } else {
      assert Fits(rows[0], shape);
      var rest := DescribedFromRows(rows[1..], shape, types);
      var columns := DescribedColumns(rows[1..], shape, types).value;
      at := OneMoreRow(rows, shape, types, columns, rest);
    }
  }

  lemma NoRows(shape: Shape, types: TypeNames)
    ensures FromVisibleRows([], [], shape, types, [])
  {
  }

  /** A row in front adds a column in front exactly when it is visible. */
  lemma OneMoreRow(rows: seq<Record>, shape: Shape, types: TypeNames, columns: seq<Column>, rest: seq<nat>)
    returns (at: seq<nat>)
    requires rows != [] && forall i :: 0 <= i < |rows| ==> Fits(rows[i], shape)
    requires FromVisibleRows(columns, rows[1..], shape, types, rest)
    requires Visible(rows[0], shape) ==> ColumnOf(rows[0], shape, types).Some?
    ensures FromVisibleRows(if Visible(rows[0], shape) then [ColumnOf(rows[0], shape, types).value] + columns else columns,
                            rows, shape, types, at)
  {
    hide Describes, Visible, Fits, ColumnOf;
    var moved := seq(|rest|, k requires 0 <= k < |rest| => rest[k] + 1);
    MovedMembers(rest, moved);
    if Visible(rows[0], shape) {
      at := [0] + moved;
      FirstDescribes(rows[0], shape, types);
    } else {
      at := moved;
    }
  }

  lemma FirstDescribes(row: Record, shape: Shape, types: TypeNames)
    requires Fits(row, shape) && ColumnOf(row, shape, types).Some?
    ensures Describes(row, shape, types, ColumnOf(row, shape, types).value)
  {
  }

  lemma MovedMembers(rest: seq<nat>, moved: seq<nat>)
    requires |moved| == |rest| && forall k :: 0 <= k < |rest| ==> moved[k] == rest[k] + 1
    ensures forall i: nat :: i in moved <==> i >= 1 && i - 1 in rest
  {
  }

  lemma {:induction false} DescribedNoneIff(rows: seq<Record>, shape: Shape, types: TypeNames)
    requires forall i :: 0 <= i < |rows| ==> Fits(rows[i], shape)
    ensures DescribedColumns(rows, shape, types).None?
            <==> exists i :: 0 <= i < |rows| && Visible(rows[i], shape) && Doubtful(rows[i], shape, types)
    ensures DescribedColumns(rows, shape, types) == Some([])
            <==> forall i :: 0 <= i < |rows| ==> !Visible(rows[i], shape)
  {
    hide Truthy;
    if rows != [] {
      DescribedNoneIff(rows[1..], shape, types);
      assert forall i :: 1 <= i < |rows| ==> rows[i] == rows[1..][i - 1];
      assert forall i :: 0 <= i < |rows| - 1 ==> rows[1..][i] == rows[i + 1];
    }
  }

  /** The describe cannot be trusted: a field is missing, no row is visible, or a visible row is doubtful. */
  ghost predicate Distrusted(set0: ResultSet, types: TypeNames)
    requires ValidSet(set0) && set0.description.Some?
  {
    var fields := set0.description.value;
    forall shape :: FieldsAt(fields, shape) ==>
      || (forall i :: 0 <= i < |set0.rows| ==> !Visible(set0.rows[i], shape))
      || exists i :: 0 <= i < |set0.rows| && Visible(set0.rows[i], shape) && Doubtful(set0.rows[i], shape, types)
  }

  /** The columns are read off the visible rows. */
  ghost predicate ReadOff(columns: seq<Column>, set0: ResultSet, types: TypeNames)
    requires ValidSet(set0) && set0.description.Some?
  {
    exists shape, at :: FieldsAt(set0.description.value, shape) && FromVisibleRows(columns, set0.rows, shape, types, at)
  }

  /** Reading a describe: either it cannot be trusted, or its columns are those of its visible rows. */
  lemma TrustedMeaning(set0: ResultSet, types: TypeNames)
    requires ValidSet(set0) && set0.description.Some?
    ensures Trusted(set0, types).None? <==> Distrusted(set0, types)
    ensures Trusted(set0, types).Some? ==> ReadOff(Trusted(set0, types).value, set0, types)
  {
    hide DescribedColumns, FromVisibleRows, Doubtful, Truthy;
    var fields := set0.description.value;
    if found :| FieldsAt(fields, found) {
      assert ShapeOf(fields) == Some(found);
    }
    var shape := ShapeOf(fields);
    if shape.Some? {
      assert FieldsAt(fields, shape.value);
      assert forall i :: 0 <= i < |set0.rows| ==> Fits(set0.rows[i], shape.value);
      DescribedNoneIff(set0.rows, shape.value, types);
      if Trusted(set0, types).Some? {
        var at := DescribedFromRows(set0.rows, shape.value, types);
      }
    }
  }

  /** The row loop at the end of the describe. */
  method ReadColumns(rows: seq<Record>, shape: Shape, types: TypeNames) returns (columns: Option<seq<Column>>)
    requires forall i :: 0 <= i < |rows| ==> Fits(rows[i], shape)
    ensures columns == if DescribedColumns(rows, shape, types) == Some([]) then None
                       else DescribedColumns(rows, shape, types)
  {
    var found: seq<Column> := [];
    assert rows[0..] == rows;
    ghost var all := DescribedColumns(rows, shape, types);
    assert all.Some? ==> [] + all.value == all.value;
    for i := 0 to |rows|
      invariant all == After(found, DescribedColumns(rows[i..], shape, types))
    {
      assert rows[i..][1..] == rows[i + 1..] && rows[i..][0] == rows[i];
      if Truthy(rows[i][shape.hidden]) {
        continue;
      }
      var column := ColumnOf(rows[i], shape, types);
      if column.None? {
        return None;
      }
      ghost var rest := DescribedColumns(rows[i + 1..], shape, types);
      if rest.Some? {
        Assoc(found, [column.value], rest.value);
      }
      found := found + [column.value];
    }
    assert rows[|rows|..] == [] && found + [] == found;
    return if found == [] then None else Some(found);
  }

  /** What the describe of a query yields: None means to execute the query instead. */
  ghost function DescribeOutcome(adbc: bool, cursor: Cursor?, types: TypeNames): Option<seq<Column>>
    requires cursor != null ==> ValidSets(cursor.sets)
    reads if cursor == null then {} else {cursor}
  {
    if adbc || cursor == null || !CanRead(cursor) then None else Trusted(cursor.sets[0], types)
  }

  /** `_describe_result_set` on a connection; `cursor` is null when executing the describe raises. The error
      is swallowed, but the failing query has released the connection. */
  method DescribeResultSet(connection: Connection, adbc: bool, cursor: Cursor?, types: TypeNames)
    returns (columns: Option<seq<Column>>)
    requires cursor != null ==> ValidSets(cursor.sets) && cursor.connection == connection
    modifies connection, if cursor == null then {} else {cursor}
    ensures columns == old(DescribeOutcome(adbc, cursor, types))
    ensures columns.None? <==> adbc || cursor == null || old(!CanRead(cursor)) || Distrusted(old(cursor.sets[0]), types)
    ensures columns.Some? ==> ReadOff(columns.value, old(cursor.sets[0]), types)
    ensures cursor != null ==> cursor.closes == old(cursor.closes) + (if adbc then 0 else 1)
    ensures adbc || cursor == null || old(Reliable(cursor)) ==>
              connection.state == AfterSelect(old(connection.state), !adbc && cursor == null)
  {
    hide DescribedColumns, Distrusted, ReadOff;
    if adbc {
      return None;
    }
    if cursor != null && CanRead(cursor) {
      TrustedMeaning(cursor.sets[0], types);
    }
    var ok := connection.AddSelectQuery(cursor == null);
    if !ok {
      return None;
    }
    var description := cursor.sets[0].description;
    var fetched: Call<seq<Record>> := Raised;
    if description.Some? {
      fetched := cursor.FetchAll();
    }
    DiscardPendingResults(cursor);
    if fetched.Raised? {
      return None;
    }
    var shape := ShapeOf(description.value);
    if shape.None? {
      return None;
    }
    columns := ReadColumns(fetched.value, shape.value, types);
  }

  /** The columns of an executed query, read off its description; reading one that is missing, or a type
      code without a name, raises. */
  function ExecutedColumns(description: Option<seq<Described>>, types: TypeNames): Call<seq<Column>> {
    if description.None? then Raised else NamedColumns(description.value, types)
  }

  function NamedColumns(description: seq<Described>, types: TypeNames): (r: Call<seq<Column>>)
    ensures r.Returned? <==> forall i :: 0 <= i < |description| ==> types.ofCode(description[i].code).Some?
    ensures r.Returned? ==>
              && |r.value| == |description|
              && forall i :: 0 <= i < |description| ==>
                   r.value[i].0 == description[i].name && types.ofCode(description[i].code) == Some(r.value[i].1)
  {
    if description == [] then Returned([])
    else
      var name, rest := types.ofCode(description[0].code), NamedColumns(description[1..], types);
      if name.None? || rest.Raised? then Raised else Returned([(description[0].name, name.value)] + rest.value)
  }

  /** The call executes the query: it does not lead with a CTE whose describe can be trusted. */
  ghost predicate Executes(sql: string, adbc: bool, describe: Cursor?, types: TypeNames)
    requires describe != null ==> ValidSets(describe.sets)
    reads if describe == null then {} else {describe}
  {
    !LeadsWithCte(sql) || DescribeOutcome(adbc, describe, types).None?
  }

  /** The cursors the call obtains are reliable. */
  ghost predicate ObtainedReliable(sql: string, adbc: bool, describe: Cursor?, direct: Cursor?, types: TypeNames)
    requires describe != null ==> ValidSets(describe.sets)
    reads if describe == null then {} else {describe}, if direct == null then {} else {direct}
  {
    && (LeadsWithCte(sql) && !adbc && describe != null ==> Reliable(describe))
    && (Executes(sql, adbc, describe, types) && direct != null ==> Reliable(direct))
  }

  /** A query the call sends raises: the describe of a CTE, where it is asked for, or the query itself. */
  ghost predicate SomeQueryRaises(sql: string, adbc: bool, describe: Cursor?, direct: Cursor?, types: TypeNames)
    requires describe != null ==> ValidSets(describe.sets)
    reads if describe == null then {} else {describe}
  {
    || (LeadsWithCte(sql) && !adbc && describe == null)
    || (Executes(sql, adbc, describe, types) && direct == null)
  }

  /** `get_column_schema_from_query` on a connection; `describe` and `direct` are the cursors that describing
      and executing the query give, null where that raises. On every path each cursor obtained is closed
      exactly once. When those are reliable, the connection's state, its open transaction and the work in it
      are as before if and only if no query sent raised or nothing was open; a describe that the server
      refuses ends the transaction although the call goes on and may return columns. */
  method GetColumnSchemaFromQuery(connection: Connection, sql: string, adbc: bool, describe: Cursor?, direct: Cursor?,
                                  types: TypeNames)
    returns (columns: Call<seq<Column>>, executed: bool)
    requires describe != null ==> ValidSets(describe.sets) && describe.connection == connection
    requires direct != null ==> ValidSets(direct.sets) && direct.connection == connection
    requires describe != null ==> describe != direct
    modifies connection
    modifies if describe == null then {} else {describe}
    modifies if direct == null then {} else {direct}
    ensures executed <==> old(Executes(sql, adbc, describe, types))
    ensures !executed ==> columns == Returned(old(DescribeOutcome(adbc, describe, types)).value)
    ensures executed <==> !LeadsWithCte(sql) || adbc || describe == null || old(!CanRead(describe))
                          || Distrusted(old(describe.sets[0]), types)
    ensures !executed ==> columns.Returned? && ReadOff(columns.value, old(describe.sets[0]), types)
    ensures executed ==>
              columns == if direct == null then Raised else ExecutedColumns(old(direct.sets[0].description), types)
    ensures describe != null ==>
              describe.closes == old(describe.closes) + (if LeadsWithCte(sql) && !adbc then 1 else 0)
    ensures direct != null ==> direct.closes == old(direct.closes) + (if executed then 1 else 0)
    ensures old(ObtainedReliable(sql, adbc, describe, direct, types)) ==>
              connection.state == AfterSelect(old(connection.state), old(SomeQueryRaises(sql, adbc, describe, direct, types)))
    ensures old(ObtainedReliable(sql, adbc, describe, direct, types)) && Sane(old(connection.state)) ==>
              (connection.state == old(connection.state)
               <==> !old(SomeQueryRaises(sql, adbc, describe, direct, types)) || !old(connection.state).transactionOpen)
  {
    hide LeadsWithCte, Trusted, NamedColumns, Distrusted, ReadOff;
    ghost var before := connection.state;
    if Sane(before) {
      SelectSurvivedIff(before, old(SomeQueryRaises(sql, adbc, describe, direct, types)));
    }
    if LeadsWithCte(sql) {
      var described := DescribeResultSet(connection, adbc, describe, types);
      if described.Some? {
        return Returned(described.value), false;
      }
    }
    executed := true;
    var ok := connection.AddSelectQuery(direct == null);
    if !ok {
      return Raised, true;
    }
    columns := ExecutedColumns(direct.sets[0].description, types);
    DiscardPendingResults(direct);
  }

  /** The refused describe inside a transaction: the call succeeds with the columns of the executed query, and
      the work done before it is gone. */
  method RefusedDescribe(connection: Connection, sql: string, direct: Cursor, types: TypeNames)
    returns (columns: Call<seq<Column>>)
    requires LeadsWithCte(sql) && Bracketed(connection.state) && connection.state.flag && connection.state.transactionOpen
    requires Reliable(direct) && direct.connection == connection
    modifies connection, direct
    ensures columns == ExecutedColumns(old(direct.sets[0].description), types)
    ensures !connection.state.transactionOpen && connection.state.depth == 0 && connection.state.pending == []
    ensures connection.state.durable == old(connection.state.durable)
    ensures !Apply(connection.state, Commit).ok
  {
    var executed;
    columns, executed := GetColumnSchemaFromQuery(connection, sql, false, null, direct, types);
  }
}
