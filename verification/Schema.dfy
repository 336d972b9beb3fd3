/** Table shapes, as a schema declares them and as a database holds them. */
module Schema {
  import opened Options

  datatype Value = Null | Known(value: int)

  /** A predicate's text, with the column names in it told apart. */
  datatype Token = Name(name: string) | Text(text: string)

  /** An index that cannot be built: its columns, its predicate, and the names of the types of the columns it involves. */
  datatype Misread = Misread(columns: seq<string>, where: seq<Token>, types: map<string, string>)

  /**
   * A column type. `keyed` when its text carries a key or a sequence, which is no type to change a column to; `casts` are the
   * types with a cast to it, `accepts` those with an assignment cast; `literals` are the default values that read as the type;
   * `misreads` are the indexes that cannot be built over a column of it, no operator of theirs taking such a column.
   */
  datatype SqlType =
    SqlType(name: string, keyed: bool, casts: set<string>, accepts: set<string>, literals: set<int>, misreads: set<Misread>)

  /** What becomes of a row whose parent row is deleted. RESTRICT waits for the commit with the rest, as NO ACTION does. */
  datatype Action = NoAction | Cascade | SetNull | SetDefault

  /** The parent table of a column, and the column of it that holds the key. */
  datatype Reference = NoReference | Reference(table: string, column: string, onDelete: Action)

  /** A column's definition. `fallback` is the value of its DEFAULT, NULL when it has none; an empty check is none. */
  datatype Def = Def(sqlType: SqlType, notNull: bool, fallback: Value, check: seq<Token>, references: Reference)

  datatype Column = Column(name: string, pk: bool, def: Def, renamedFrom: string)

  datatype Index = Index(name: string, columns: seq<string>, unique: bool, where: seq<Token>)

  datatype Table = Table(name: string, columns: seq<Column>, indexes: seq<Index>, primaryKey: seq<string>)

  type Row = map<string, Value>

  /** A column as the database holds it. */
  datatype Held = Held(name: string, pk: bool, def: Def)

  datatype Live = Live(columns: seq<Held>, primaryKey: seq<string>, indexes: map<string, Index>, rows: seq<Row>)

  type Db = map<string, Live>

  // ---- Shapes -------------------------------------------------------------------------------

  function HeldOf(c: Column): Held { Held(c.name, c.pk, c.def) }

  /** The columns CREATE TABLE writes: primary keys first. */
  function Layout(columns: seq<Column>): seq<Held> { Only(columns, true) + Only(columns, false) }

  function Only(columns: seq<Column>, pk: bool): seq<Held> {
    if columns == [] then []
    else (if columns[0].pk == pk then [HeldOf(columns[0])] else []) + Only(columns[1..], pk)
  }

  predicate HasName(columns: seq<Held>, name: string) { exists i | 0 <= i < |columns| :: columns[i].name == name }

  predicate Declares(columns: seq<Column>, name: string) { exists i | 0 <= i < |columns| :: columns[i].name == name }

  predicate DistinctColumns(columns: seq<Column>) { forall i, j | 0 <= i < j < |columns| :: columns[i].name != columns[j].name }

  function IndexMap(indexes: seq<Index>): map<string, Index> {
    if indexes == [] then map[]
    else
      var before, last := IndexMap(indexes[..|indexes| - 1]), indexes[|indexes| - 1];
      if last.name in before then before else before[last.name := last]
  }

  predicate DistinctIndexes(xs: seq<Index>) { forall i, j | 0 <= i < j < |xs| :: xs[i].name != xs[j].name }

  lemma {:induction false} IndexMapHas(xs: seq<Index>, name: string)
    ensures name in IndexMap(xs) <==> exists i | 0 <= i < |xs| :: xs[i].name == name
  {
    if xs != [] { IndexMapHas(xs[..|xs| - 1], name); }
  }

  function Names(columns: seq<Held>): set<string> { set i | 0 <= i < |columns| :: columns[i].name }

  // ---- Renaming a column --------------------------------------------------------------------

  function Renamed(name: string, a: string, b: string): string { if name == a then b else name }

  function RenamedAll(names: seq<string>, a: string, b: string): (r: seq<string>)
    ensures |r| == |names| && forall i | 0 <= i < |names| :: r[i] == Renamed(names[i], a, b)
  {
    seq(|names|, i requires 0 <= i < |names| => Renamed(names[i], a, b))
  }

  function RenamedWhere(where: seq<Token>, a: string, b: string): (r: seq<Token>)
    ensures |r| == |where| && forall i | 0 <= i < |where| :: r[i] == if where[i] == Name(a) then Name(b) else where[i]
  {
    seq(|where|, i requires 0 <= i < |where| => if where[i] == Name(a) then Name(b) else where[i])
  }

  function RenamedIndex(x: Index, a: string, b: string): Index {
    x.(columns := RenamedAll(x.columns, a, b), where := RenamedWhere(x.where, a, b))
  }

  function RenamedRow<V>(row: map<string, V>, a: string, b: string): map<string, V> {
    if a in row then (map c | c in row && c != a :: row[c])[b := row[a]] else row
  }
}
