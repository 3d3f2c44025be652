/** The database schema as the search compiler sees it, and the column
    path helpers of svySearch/svySearch.js (`parseQBColumn`,
    `parseJSColumnInfo`, `dataProviderHasXDBRelation`). The schema stands
    for `databaseManager` and `solutionModel`: tables by data source, and
    relations by name. */
module Schema {
  import opened JsValues
  import opened Strings

  /** The column types of `JSColumn`; `Other` covers every other type code
      (MEDIA and the like). */
  datatype ColumnType = Text | Integer | Number | DateTime | Other(code: int)

  /** A data source `db:/<server>/<table>`. */
  datatype DataSource = DataSource(server: string, table: string)

  datatype Column = Column(name: string, colType: ColumnType)

  /** A relation joins a primary data source to a foreign one. */
  datatype Relation = Relation(primary: DataSource, foreign: DataSource)

  datatype Schema = Schema(tables: map<DataSource, seq<Column>>, relations: map<string, Relation>)

  /** The table of a data source lists each column name once, and no column
      name contains the path separator. */
  predicate WellFormedTable(columns: seq<Column>) {
    && (forall i, j :: 0 <= i < j < |columns| ==> columns[i].name != columns[j].name)
    && (forall i :: 0 <= i < |columns| ==> '.' !in columns[i].name)
  }

  /** A column reference of a query: the chain of joins (relation names, in
      path order) and the column name. */
  datatype ColumnRef = ColumnRef(joins: seq<string>, name: string)

  /** The path split of `parseQBColumn`: every segment but the last is a
      join, the last one is the column; joining them back with '.' gives the
      data provider id. */
  function QBColumn(dataProviderID: string): (c: ColumnRef)
    ensures Join(c.joins + [c.name], ".") == dataProviderID
    ensures IndexOf(c.name, ".") == -1
    ensures forall k :: 0 <= k < |c.joins| ==> IndexOf(c.joins[k], ".") == -1
  {
    var path := Split(dataProviderID, ".");
    JoinSplit(dataProviderID, ".");
    SplitPiecesFree(dataProviderID, ".");
    assert path[..|path| - 1] + [path[|path| - 1]] == path;
    ColumnRef(path[..|path| - 1], path[|path| - 1])
  }

  /** `parseQBColumn(q, dataProviderID)`: the column reference resolved
      in the query builder, where each join is looked up by relation name; a
      name that is no relation makes the next property read throw. */
  function QBColumnOf(schema: Schema, dataProviderID: string): Js<ColumnRef> {
    var c := QBColumn(dataProviderID);
    if forall k :: 0 <= k < |c.joins| ==> c.joins[k] in schema.relations then Ok(c)
    else Throws(TypeError)
  }

  /** `parseQBColumn`: pops the column name and the last join, then walks the
      joins in front of it. */
  method ParseQBColumn(schema: Schema, dataProviderID: string) returns (r: Js<ColumnRef>)
    ensures r == QBColumnOf(schema, dataProviderID)
  {
    var path := Split(dataProviderID, ".");
    var columnName := path[|path| - 1];
    path := path[..|path| - 1];
    if |path| == 0 {
      return Ok(ColumnRef([], columnName));
    }
    ghost var joins := path;
    var lastJoin := path[|path| - 1];
    path := path[..|path| - 1];
    assert joins == path + [lastJoin];
    var walked: seq<string> := [];
    var i := 0;
    while i < |path|
      invariant 0 <= i <= |path|
      invariant walked == path[..i]
      invariant forall k :: 0 <= k < i ==> path[k] in schema.relations
    {
      if path[i] !in schema.relations {
        assert joins[i] == path[i];
        return Throws(TypeError);
      }
      walked := walked + [path[i]];
      i := i + 1;
    }
    assert walked == path;
    if lastJoin !in schema.relations {
      assert joins[|joins| - 1] == lastJoin;
      return Throws(TypeError);
    }
    return Ok(ColumnRef(walked + [lastJoin], columnName));
  }

  /** The first column of a table with the given name. */
  function FindColumn(columns: seq<Column>, name: string): (r: Option<Column>)
    ensures r.Some? ==> r.value in columns && r.value.name == name
    ensures r.None? ==> forall c :: c in columns ==> c.name != name
  {
    if columns == [] then None
    else if columns[0].name == name then Some(columns[0])
    else FindColumn(columns[1..], name)
  }

  /** The table and column `parseJSColumnInfo` returns. */
  datatype ColumnInfo = ColumnInfo(table: DataSource, column: Column)

  /** `parseJSColumnInfo` on a path already split on '.': the table is the
      data source's own when the path has one segment, and otherwise the
      foreign table of the LAST relation segment only. An unknown relation
      makes `relation.foreignDataSource` throw; a missing table or column
      gives null. */
  function ColumnInfoOfPath(schema: Schema, dataSource: DataSource, path: seq<string>): (r: Js<Option<ColumnInfo>>)
    requires |path| >= 1
    ensures r.Ok? && r.value.Some? ==>
      && r.value.value.table in schema.tables
      && r.value.value.column in schema.tables[r.value.value.table]
      && r.value.value.column.name == path[|path| - 1]
    ensures r.Throws? <==> |path| >= 2 && path[|path| - 2] !in schema.relations
  {
    var colName := path[|path| - 1];
    if |path| >= 2 && path[|path| - 2] !in schema.relations then Throws(TypeError)
    else
      var table := if |path| >= 2 then schema.relations[path[|path| - 2]].foreign else dataSource;
      if table !in schema.tables then Ok(None)
      else
        var column := FindColumn(schema.tables[table], colName);
        if column.None? then Ok(None) else Ok(Some(ColumnInfo(table, column.value)))
  }

  /** `parseJSColumnInfo(dataSource, dataProviderID)`. */
  function ColumnInfoOf(schema: Schema, dataSource: DataSource, dataProviderID: string): Js<Option<ColumnInfo>> {
    ColumnInfoOfPath(schema, dataSource, Split(dataProviderID, "."))
  }

  /** When the query builder resolves a data provider id, every relation on
      its path is known, so looking up its table does not throw either. */
  lemma QBColumnResolvesInfo(schema: Schema, dataSource: DataSource, dataProviderID: string)
    requires QBColumnOf(schema, dataProviderID).Ok?
    ensures !ColumnInfoOf(schema, dataSource, dataProviderID).Throws?
  {
    var c := QBColumn(dataProviderID);
    var path := Split(dataProviderID, ".");
    if |path| >= 2 {
      assert path[|path| - 2] == c.joins[|c.joins| - 1];
    }
  }

  /** Only the last relation of a path decides the table: any relations in
      front of it are ignored (not even checked to exist). */
  lemma ColumnInfoLastRelationOnly(schema: Schema, dataSource: DataSource, front: seq<string>, path: seq<string>)
    requires |path| >= 2
    ensures ColumnInfoOfPath(schema, dataSource, front + path) == ColumnInfoOfPath(schema, dataSource, path)
  {
    var p := front + path;
    assert p[|p| - 1] == path[|path| - 1] && p[|p| - 2] == path[|path| - 2];
  }

  /** A path without relations resolves in the data source's own table. */
  lemma ColumnInfoOwnTable(schema: Schema, dataSource: DataSource, name: string)
    requires dataSource in schema.tables
    ensures ColumnInfoOfPath(schema, dataSource, [name]).Ok?
    ensures ColumnInfoOfPath(schema, dataSource, [name]).value.Some? <==>
      exists c :: c in schema.tables[dataSource] && c.name == name
  {
  }

  /** `sp.getJSColumn().getType()`: a missing column makes `getType` throw. */
  function ColumnTypeOf(schema: Schema, dataSource: DataSource, dataProviderID: string): (r: Js<ColumnType>)
    ensures r.Ok? <==> (ColumnInfoOf(schema, dataSource, dataProviderID).Ok?
                        && ColumnInfoOf(schema, dataSource, dataProviderID).value.Some?)
  {
    match ColumnInfoOf(schema, dataSource, dataProviderID)
    case Throws(e) => Throws(e)
    case Ok(None) => Throws(TypeError)
    case Ok(Some(info)) => Ok(info.column.colType)
  }

  /** The relation segments of a data provider id, checked from the last one
      back: the first relation (from the end) that joins two servers makes
      the answer true; an unknown relation throws. */
  function XdbCheck(schema: Schema, relations: seq<string>): Js<bool>
    decreases |relations|
  {
    if relations == [] then Ok(false)
    else
      var name := relations[|relations| - 1];
      if name !in schema.relations then Throws(TypeError)
      else
        var rel := schema.relations[name];
        if rel.primary.server != rel.foreign.server then Ok(true)
        else XdbCheck(schema, relations[..|relations| - 1])
  }

  /** A relation stays within one server. */
  predicate SameServer(schema: Schema, name: string) {
    name in schema.relations
    && schema.relations[name].primary.server == schema.relations[name].foreign.server
  }

  /** A known relation that joins two servers. */
  predicate CrossServer(schema: Schema, name: string) {
    name in schema.relations
    && schema.relations[name].primary.server != schema.relations[name].foreign.server
  }

  /** The check answers false exactly when every relation segment is known
      and stays within one server. */
  lemma {:induction false} XdbCheckFalse(schema: Schema, relations: seq<string>)
    ensures XdbCheck(schema, relations) == Ok(false) <==>
      forall k :: 0 <= k < |relations| ==> SameServer(schema, relations[k])
    decreases |relations|
  {
    if relations != [] {
      var front := relations[..|relations| - 1];
      XdbCheckFalse(schema, front);
      assert forall k :: 0 <= k < |front| ==> front[k] == relations[k];
    }
  }

  /** A true answer names a known relation that joins two servers. */
  lemma {:induction false} XdbCheckTrue(schema: Schema, relations: seq<string>)
    requires XdbCheck(schema, relations) == Ok(true)
    ensures exists k :: 0 <= k < |relations| && CrossServer(schema, relations[k])
    decreases |relations|
  {
    var last := |relations| - 1;
    var rel := schema.relations[relations[last]];
    if rel.primary.server == rel.foreign.server {
      var front := relations[..last];
      XdbCheckTrue(schema, front);
      var k :| 0 <= k < |front| && CrossServer(schema, front[k]);
      assert relations[k] == front[k];
    } else {
      assert CrossServer(schema, relations[last]);
    }
  }

  /** The relation segments of a data provider id: all but the last. */
  function RelationSegments(dataProviderID: string): seq<string> {
    var path := Split(dataProviderID, ".");
    path[..|path| - 1]
  }

  /** `dataProviderHasXDBRelation(dataProviderID)`: drops the column name,
      then pops the relation names one by one from the end. */
  method HasXdbRelation(schema: Schema, dataProviderID: string) returns (r: Js<bool>)
    ensures r == XdbCheck(schema, RelationSegments(dataProviderID))
  {
    var path := Split(dataProviderID, ".");
    path := path[..|path| - 1];
    ghost var all := path;
    while |path| > 0
      invariant XdbCheck(schema, all) == XdbCheck(schema, path)
    {
      var name := path[|path| - 1];
      ghost var before := path;
      path := path[..|path| - 1];
      assert XdbCheck(schema, before) == if name !in schema.relations then Throws(TypeError)
        else if CrossServer(schema, name) then Ok(true) else XdbCheck(schema, path);
      if name !in schema.relations {
        return Throws(TypeError);
      }
      var relation := schema.relations[name];
      var primaryServer := relation.primary.server;
      var foreignServer := relation.foreign.server;
      if primaryServer != foreignServer {
        return Ok(true);
      }
    }
    return Ok(false);
  }

  /** A data provider id without a '.' has no relation to check. */
  lemma NoRelationNoXdb(schema: Schema, dataProviderID: string)
    requires '.' !in dataProviderID
    ensures RelationSegments(dataProviderID) == []
    ensures XdbCheck(schema, RelationSegments(dataProviderID)) == Ok(false)
  {
    SplitWithout(dataProviderID, '.');
  }
}
