/** models/job.js: the query text and parameters `Job.findAll` and
    `Job.update` hand to the database, and the jobs table as far as
    `create`, `update` and `remove` report on it. */
module Jobs {
  import opened Js
  import opened Text
  import opened ExpressError
  import opened Sql

  /** The field-to-column map `findAll` passes to the job search. */
  const FindAllColumns: ColumnMap := map["title" := "title", "minSalary" := "salary", "hasEquity" := "equity"]

  /** The field-to-column map `update` passes to the partial update. */
  const UpdateColumns: ColumnMap := map["salary" := "salary", "equity" := "equity"]

  /** The second argument of `db.query`: an array of values, or the empty
      string `''` that `findAll` passes when there is no filter. */
  datatype Params = NoParams | Params(values: seq<JsValue>)

  datatype Query = Query(text: string, params: Params)

  // ---------------------------------------------------------------------
  // findAll

  /** The fixed head of the `findAll` query (the template's line breaks are
      line feeds). */
  const SelectJobs: string :=
    "\n      SELECT title," + "\n      salary," + "\n      equity," +
    "\n      company_handle AS \"companyHandle\"" + "\n      FROM jobs"

  const OrderByTitle: string := " ORDER BY title"

  const Where: string := " WHERE "

  /** `` ` WHERE ${setCols.trim().replaceAll(',', ' AND')}` `` */
  function WhereClause(setCols: string): string
  {
    Where + ReplaceAllChar(Trim(setCols), ',', " AND")
  }

  /** The query starts with the fixed SELECT and ends with ORDER BY title. */
  predicate SelectOrderedByTitle(text: string)
  {
    && |text| >= |SelectJobs| + |OrderByTitle|
    && text[..|SelectJobs|] == SelectJobs
    && text[|text| - |OrderByTitle|..] == OrderByTitle
  }

  /** `Job.findAll(data)` up to the call of `db.query`: an object with no keys
      never reaches the search builder and is queried with no WHERE clause
      and no parameters; otherwise a refused search throws its error, and a
      passing one binds the builder's values; the query always ends with
      ORDER BY title. */
  function FindAllQuery(data: JsObject): (r: Result<Query>)
    ensures |data| == 0 ==> r == Ok(Query(SelectJobs + OrderByTitle, NoParams))
    ensures r.Err? <==> |data| > 0 && exists i :: 0 <= i < |JobRules| && Violates(data, JobRules[i])
    ensures r.Err? ==> r.error == JobFilter(data, FindAllColumns).error
    ensures r.Ok? && |data| > 0 ==> r.value.params == Params(JobFilter(data, FindAllColumns).value.value.values)
    ensures r.Ok? ==> SelectOrderedByTitle(r.value.text)
  {
    if |data| == 0 then Ok(Query(SelectJobs + OrderByTitle, NoParams))
    else match JobFilter(data, FindAllColumns)
      case Err(e) => Err(e)
      case Ok(c) =>
        Framed(SelectJobs, WhereClause(c.value.setCols), OrderByTitle);
        Ok(Query(SelectJobs + WhereClause(c.value.setCols) + OrderByTitle, Params(c.value.values)))
  }

  /** Every key of the search is one `findAll` knows. */
  predicate KnownKeys(keys: seq<string>)
  {
    forall i :: 0 <= i < |keys| ==> JobOp(keys[i]).Some?
  }

  /** The predicates the keys stand for, each bound to its own position
      (an unknown key stands for none). */
  function JobPredicates(keys: seq<string>): (ps: seq<string>)
    ensures |ps| == |keys|
  {
    seq(|keys|, i requires 0 <= i < |keys| =>
      match JobOp(keys[i])
      case Some(op) => Predicate(op, ColumnFor(FindAllColumns, keys[i]), i + 1)
      case None => "")
  }

  /** Text `trim` leaves alone and `replaceAll(',', ...)` does not cut: it
      is not empty, starts and ends with no white space and has no comma. */
  predicate Solid(p: string)
  {
    p != [] && !IsJsWhitespace(p[0]) && !IsJsWhitespace(p[|p| - 1]) && ',' !in p
  }

  /** A predicate over a column with no comma in its name is solid: it
      starts with `L` or `"` and ends with a digit. */
  lemma PredicateSolid(op: Op, column: string, n: nat)
    requires ',' !in column
    ensures Solid(Predicate(op, column, n))
  {
    var d := DecimalString(n);
    var p := Predicate(op, column, n);
    assert p[0] == 'L' || p[0] == '"';
    assert p[|p| - 1] == d[|d| - 1];
    assert IsDigit(d[|d| - 1]);
    assert ',' !in d by {
      forall i | 0 <= i < |d| ensures d[i] != ',' {
        assert IsDigit(d[i]);
      }
    }
  }

  /** The predicates of the keys `findAll` knows are solid. */
  lemma JobPredicatesSolid(keys: seq<string>)
    requires KnownKeys(keys)
    ensures forall i :: 0 <= i < |keys| ==> Solid(JobPredicates(keys)[i])
  {
    forall i | 0 <= i < |keys| ensures Solid(JobPredicates(keys)[i]) {
      FindAllColumnFor(keys[i]);
      PredicateSolid(JobOp(keys[i]).value, ColumnFor(FindAllColumns, keys[i]), i + 1);
    }
  }

  /** The keys a passing search keeps are keys of the search. */
  lemma KeptKeysKnown(data: JsObject)
    requires KnownKeys(Keys(data))
    ensures KnownKeys(Keys(DropFalsyEquity(data)))
  {
    var d := DropFalsyEquity(data);
    forall i | 0 <= i < |d| ensures JobOp(Keys(d)[i]).Some? {
      assert d[i] in data;
      var j :| 0 <= j < |data| && data[j] == d[i];
      assert Keys(data)[j] == d[i].key;
    }
  }

  /** With the `findAll` map, the job search over known keys yields exactly
      the predicates those keys stand for. */
  lemma FindAllFragments(d: JsObject)
    requires KnownKeys(Keys(d))
    requires "hasEquity" in Keys(d) ==> TruthyAt(d, "hasEquity")
    ensures Rendered(JobFragments(Keys(d), FindAllColumns, d)) == JobPredicates(Keys(d))
  {
    var keys := Keys(d);
    var parts := Rendered(JobFragments(keys, FindAllColumns, d));
    forall i | 0 <= i < |keys| ensures parts[i] == JobPredicates(keys)[i] {
      var k := keys[i];
      FindAllColumnFor(k);
      assert k == "hasEquity" ==> "hasEquity" in keys;
      JobFragmentIsPredicate(k, i + 1, FindAllColumns, d);
    }
  }

  /** A ", " list of solid items starts and ends with no white space, so
      trimming leaves it as it is. */
  lemma SolidList(ps: seq<string>)
    requires |ps| > 0 && Solid(ps[0]) && Solid(ps[|ps| - 1])
    ensures Trim(Join(ps, ", ")) == Join(ps, ", ")
  {
    SolidListEnds(ps);
    TrimUnchanged(Join(ps, ", "));
  }

  lemma SolidListEnds(ps: seq<string>)
    requires |ps| > 0 && Solid(ps[0]) && Solid(ps[|ps| - 1])
    ensures var s := Join(ps, ", "); s != [] && s[0] == ps[0][0] && s[|s| - 1] == ps[|ps| - 1][|ps[|ps| - 1]| - 1]
  {
    var s := Join(ps, ", ");
    JoinLast(ps, ", ");
    if |ps| > 1 {
      assert s == ps[0] + (", " + Join(ps[1..], ", "));
    }
  }

  /** The WHERE text of a ", " list of solid items: trimming changes
      nothing, and every `,` becomes ` AND`, so it is the same items joined
      by AND, with the same placeholders. */
  lemma WhereOfSolid(ps: seq<string>)
    requires |ps| > 0 && forall i :: 0 <= i < |ps| ==> Solid(ps[i])
    ensures WhereClause(Join(ps, ", ")) == Where + Join(ps, " AND ")
  {
    var s := Join(ps, ", ");
    assert Trim(s) == s by {
      SolidList(ps);
    }
    assert ReplaceAllChar(s, ',', " AND") == Join(ps, " AND ") by {
      assert forall i :: 0 <= i < |ps| ==> ',' !in ps[i];
      ReplaceCommasOfJoin(ps);
    }
  }

  /** Joining by AND instead of ", " neither adds nor loses a placeholder. */
  lemma AndKeepsPlaceholders(ps: seq<string>)
    ensures Placeholders(Join(ps, " AND ")) == Placeholders(Join(ps, ", "))
  {
    PlaceholdersOfJoin(ps, ", ");
    PlaceholdersOfJoin(ps, " AND ");
  }

  lemma SelectWithoutDollar()
    ensures '$' !in SelectJobs
  {
  }

  /** The text around the WHERE list holds no placeholder, so the query's
      placeholders are the list's. */
  lemma QueryPlaceholders(middle: string)
    ensures Placeholders(SelectJobs + middle + OrderByTitle) == Placeholders(middle)
  {
    SelectWithoutDollar();
    PlaceholdersBetween(SelectJobs, middle, OrderByTitle);
  }

  /** The column `findAll` maps a known key to: the key's own column for
      `title`, and none with a `$`, `,` or `=` in its name. */
  lemma FindAllColumnFor(k: string)
    requires JobOp(k).Some?
    ensures var c := ColumnFor(FindAllColumns, k);
      && (k == "title" ==> c == "title")
      && '$' !in c && ',' !in c && '=' !in c
  {
  }

  /** A passing search over known keys with something left once a falsy
      `hasEquity` is dropped: its WHERE text is the predicates of the
      remaining keys joined by AND, numbered `$1 … $N` for its N values. */
  lemma KnownSearch(data: JsObject)
    requires JobFilter(data, FindAllColumns).Ok? && |data| > 0
    requires KnownKeys(Keys(data))
    requires |DropFalsyEquity(data)| > 0
    ensures var c := JobFilter(data, FindAllColumns).value.value;
      var ps := JobPredicates(Keys(DropFalsyEquity(data)));
      && WhereClause(c.setCols) == Where + Join(ps, " AND ")
      && Placeholders(Join(ps, " AND ")) == Numbers(1, |c.values|)
  {
    var d := DropFalsyEquity(data);
    var c := JobFilter(data, FindAllColumns).value.value;
    var ps := JobPredicates(Keys(d));
    assert c.setCols == Join(ps, ", ") by {
      KeptKeysKnown(data);
      FindAllFragments(d);
    }
    assert WhereClause(c.setCols) == Where + Join(ps, " AND ") by {
      KeptKeysKnown(data);
      JobPredicatesSolid(Keys(d));
      WhereOfSolid(ps);
    }
    assert Placeholders(c.setCols) == Numbers(1, |c.values|) by {
      KnownSearchNumbered(data);
    }
    AndKeepsPlaceholders(ps);
  }

  /** The placeholders of a passing search over known keys are `$1 … $N`. */
  lemma KnownSearchNumbered(data: JsObject)
    requires JobFilter(data, FindAllColumns).Ok? && |data| > 0
    requires KnownKeys(Keys(data))
    ensures var c := JobFilter(data, FindAllColumns).value.value;
      Placeholders(c.setCols) == Numbers(1, |c.values|)
  {
    var d := DropFalsyEquity(data);
    assert JobColumnsWithoutDollar(FindAllColumns) by {
      FindAllColumnFor("title");
      FindAllColumnFor("minSalary");
      FindAllColumnFor("hasEquity");
    }
    KeptKeysKnown(data);
    forall i | 0 <= i < |d| ensures JobOp(d[i].key).Some? {
      assert Keys(d)[i] == d[i].key;
    }
    JobFilterPlaceholders(data, FindAllColumns);
  }

  /** A passing search over keys `findAll` knows, with something left once
      a falsy `hasEquity` is dropped: the WHERE clause is the predicates of
      the remaining keys joined by AND. */
  lemma FindAllWhere(data: JsObject)
    requires FindAllQuery(data).Ok? && |data| > 0
    requires KnownKeys(Keys(data))
    requires |DropFalsyEquity(data)| > 0
    ensures var ps := JobPredicates(Keys(DropFalsyEquity(data)));
      FindAllQuery(data).value.text == SelectJobs + (Where + Join(ps, " AND ")) + OrderByTitle
  {
    KnownSearch(data);
  }

  /** The same search binds its parameters to exactly the placeholders
      `$1 … $N` of the query, one per parameter. */
  lemma FindAllNumbered(data: JsObject)
    requires FindAllQuery(data).Ok? && |data| > 0
    requires KnownKeys(Keys(data))
    requires |DropFalsyEquity(data)| > 0
    ensures var q := FindAllQuery(data).value;
      q.params.Params? && Placeholders(q.text) == Numbers(1, |q.params.values|)
  {
    var c := JobFilter(data, FindAllColumns).value.value;
    var list := Join(JobPredicates(Keys(DropFalsyEquity(data))), " AND ");
    FindAllWhere(data);
    KnownSearch(data);
    WherePlaceholders(list, |c.values|);
  }

  /** The fixed text around a WHERE list adds no placeholder to it. */
  lemma WherePlaceholders(list: string, n: nat)
    requires Placeholders(list) == Numbers(1, n)
    ensures Placeholders(SelectJobs + (Where + list) + OrderByTitle) == Numbers(1, n)
  {
    QueryPlaceholders(Where + list);
    PlaceholdersSkip(Where, list);
  }

  /** The search for jobs with and without equity, `{ hasEquity: false }`,
      leaves nothing once `hasEquity` is dropped, yet `findAll` still writes
      ` WHERE ` before ORDER BY: the text reads `... FROM jobs WHERE  ORDER BY
      title`, which is not valid SQL. */
  lemma FindAllDanglingWhere(data: JsObject)
    requires |data| == 1 && data[0].key == "hasEquity" && !Truthy(data[0].value)
    ensures FindAllQuery(data) == Ok(Query(SelectJobs + Where + OrderByTitle, Params([])))
  {
    assert JobFilter(data, FindAllColumns) == Ok(Some(Clause("", []))) by {
      GetAt(data, 0);
      assert forall i :: 0 <= i < |JobRules| ==> !Violates(data, JobRules[i]);
      assert data[1..] == [];
      assert DropFalsyEquity(data) == Without(data[1..], "hasEquity") == [];
    }
    assert WhereClause("") == Where by {
      assert Trim("") == "";
    }
  }

  /** `findAll` as evidently intended: when nothing is left to filter on
      once a falsy `hasEquity` is dropped, no WHERE clause is written. */
  function FindAllQueryIntended(data: JsObject): (r: Result<Query>)
    ensures r.Err? <==> FindAllQuery(data).Err?
    ensures r.Err? ==> r.error == FindAllQuery(data).error
    ensures r.Ok? ==> SelectOrderedByTitle(r.value.text)
  {
    if |data| == 0 then Ok(Query(SelectJobs + OrderByTitle, NoParams))
    else match JobFilter(data, FindAllColumns)
      case Err(e) => Err(e)
      case Ok(c) =>
        var where := if |DropFalsyEquity(data)| == 0 then "" else WhereClause(c.value.setCols);
        Framed(SelectJobs, where, OrderByTitle);
        Ok(Query(SelectJobs + where + OrderByTitle, Params(c.value.values)))
  }

  /** The correction touches only the dangling WHERE: whenever a search
      has something left to filter on, or there is no search at all, the
      query is the one `findAll` builds. */
  lemma FindAllIntendedAgrees(data: JsObject)
    requires |data| == 0 || |DropFalsyEquity(data)| > 0
    ensures FindAllQueryIntended(data) == FindAllQuery(data)
  {
  }

  /** Every passing search over keys `findAll` knows gives a well-formed
      query: either no WHERE clause at all, or a WHERE clause listing at
      least one predicate; and its placeholders are exactly `$1 … $N` for
      its N parameters. */
  lemma FindAllIntendedWellFormed(data: JsObject)
    requires FindAllQuery(data).Ok? && |data| > 0
    requires KnownKeys(Keys(data))
    ensures var q := FindAllQueryIntended(data).value;
      var ps := JobPredicates(Keys(DropFalsyEquity(data)));
      && q.params.Params?
      && Placeholders(q.text) == Numbers(1, |q.params.values|)
      && (q.text == SelectJobs + OrderByTitle ||
          (|ps| > 0 && q.text == SelectJobs + (Where + Join(ps, " AND ")) + OrderByTitle))
  {
    var d := DropFalsyEquity(data);
    var c := JobFilter(data, FindAllColumns).value.value;
    if |d| == 0 {
      assert FindAllQueryIntended(data).value.text == SelectJobs + "" + OrderByTitle;
      QueryPlaceholders("");
      assert Placeholders("") == [];
    } else {
      var list := Join(JobPredicates(Keys(d)), " AND ");
      KnownSearch(data);
      assert FindAllQueryIntended(data).value.text == SelectJobs + (Where + list) + OrderByTitle;
      WherePlaceholders(list, |c.values|);
    }
  }

  // ---------------------------------------------------------------------
  // update

  const UpdateHead: string := "UPDATE jobs \n" + "                      SET "

  const UpdateWhereTitle: string := " \n" + "                      WHERE title = "

  const UpdateReturning: string :=
    " \n" + "                      RETURNING title, \n" + "                                salary, \n" +
    "                                equity, \n" + "                                company_handle AS \"companyHandle\""

  /** The fixed text of the update holds no placeholder. */
  lemma UpdateTemplateWithoutDollar()
    ensures '$' !in UpdateHead && '$' !in UpdateWhereTitle && '$' !in UpdateReturning
  {
    UpdateHeadWithoutDollar();
    UpdateWhereTitleWithoutDollar();
    UpdateReturningWithoutDollar();
  }

  lemma UpdateHeadWithoutDollar()
    ensures '$' !in UpdateHead
  {
  }

  lemma UpdateWhereTitleWithoutDollar()
    ensures '$' !in UpdateWhereTitle
  {
  }

  lemma UpdateReturningWithoutDollar()
    ensures '$' !in UpdateReturning
  {
  }

  /** `Job.update(title, data)` up to the call of `db.query`: no data is
      refused with "No data" before any query; otherwise the title is bound
      after the data's values. */
  function UpdateQuery(title: string, data: JsObject): (r: Result<Query>)
    ensures r.Err? <==> |data| == 0
    ensures r.Err? ==> r.error == BadRequest("No data")
    ensures r.Ok? ==> r.value.params == Params(Values(data) + [Str(title)])
  {
    match SqlForPartialUpdate(data, UpdateColumns)
    case Err(e) => Err(e)
    case Ok(c) =>
      var titleVarIdx := Param(|c.values| + 1);
      Ok(Query(UpdateHead + c.setCols + UpdateWhereTitle + titleVarIdx + UpdateReturning,
               Params(c.values + [Str(title)])))
  }

  /** The update has N + 1 parameters with the title last; when no key of
      the data holds a `$`, its placeholders are exactly `$1 … $N+1`. */
  lemma UpdateQueryPlaceholders(title: string, data: JsObject)
    requires |data| > 0
    ensures var q := UpdateQuery(title, data).value;
      var n := |q.params.values|;
      && n == |data| + 1
      && q.params.values[n - 1] == Str(title)
      && (ColumnsWithoutDollar(Keys(data), UpdateColumns) ==> Placeholders(q.text) == Numbers(1, n))
  {
    var c := SqlForPartialUpdate(data, UpdateColumns).value;
    assert UpdateQuery(title, data).value.text ==
      UpdateHead + c.setCols + UpdateWhereTitle + Param(|c.values| + 1) + UpdateReturning;
    if ColumnsWithoutDollar(Keys(data), UpdateColumns) {
      UpdateTemplateWithoutDollar();
      ParamAfterList(UpdateHead, c.setCols, UpdateWhereTitle, UpdateReturning, |c.values| + 1);
    }
  }

  /** A list numbered `$1 … $N-1` followed by `$N`, in text with no other
      placeholder, is numbered `$1 … $N`. */
  lemma ParamAfterList(head: string, list: string, sep: string, tail: string, n: nat)
    requires n > 0 && Placeholders(list) == Numbers(1, n - 1)
    requires '$' !in head && '$' !in sep && '$' !in tail
    requires sep != [] && !IsDigit(sep[0]) && tail != [] && !IsDigit(tail[0])
    ensures Placeholders(head + list + sep + Param(n) + tail) == Numbers(1, n)
  {
    assert head + list + sep + Param(n) + tail == head + (list + sep + Param(n)) + tail;
    PlaceholdersBetween(head, list + sep + Param(n), tail);
    PlaceholdersThenParam(list, sep, Param(n), n);
    assert Numbers(1, n - 1) + [n] == Numbers(1, n);
  }

  /** The last placeholder, the title's, is the one `WHERE title =`
      compares with: the query ends with that comparison and RETURNING. */
  lemma UpdateComparesTitle(title: string, data: JsObject)
    requires |data| > 0
    ensures var q := UpdateQuery(title, data).value;
      EndsWith(q.text, UpdateWhereTitle + Param(|q.params.values|) + UpdateReturning)
  {
    var q := UpdateQuery(title, data).value;
    var c := SqlForPartialUpdate(data, UpdateColumns).value;
    assert |q.params.values| == |c.values| + 1;
    assert q.text == UpdateHead + c.setCols + UpdateWhereTitle + Param(|c.values| + 1) + UpdateReturning;
    SuffixEndsWith(UpdateHead, c.setCols, UpdateWhereTitle, Param(|c.values| + 1), UpdateReturning);
  }

  /** `s.endsWith(t)` */
  predicate EndsWith(s: string, t: string)
  {
    |t| <= |s| && s[|s| - |t|..] == t
  }

  lemma SuffixEndsWith(head: string, list: string, sep: string, p: string, tail: string)
    ensures EndsWith(head + list + sep + p + tail, sep + p + tail)
  {
    var s := head + list + sep + p + tail;
    assert s[|head + list|..] == sep + p + tail;
  }

  // ---------------------------------------------------------------------
  // The jobs table

  /** A row of the jobs table. */
  datatype Job = Job(title: string, salary: JsValue, equity: JsValue, companyHandle: string)

  /** The text node-pg sends for a parameter (`String(v)`), or `None` for
      SQL NULL. */
  function SentText(v: JsValue): Option<string>
  {
    match v
    case Str(s) => Some(s)
    case Num(n) => Some(if n < 0 then "-" + DecimalString(-n) else DecimalString(n))
    case Bool(b) => Some(if b then "true" else "false")
    case Null => None
  }

  /** One assignment `"column"=$i` applied to a row. A row's title and
      company handle are text, so a NULL for either leaves no row
      (`None`); a column the row does not hold changes nothing. */
  function AssignColumn(job: Job, column: string, v: JsValue): Option<Job>
  {
    if column == "salary" then Some(job.(salary := v))
    else if column == "equity" then Some(job.(equity := v))
    else if column == "title" || column == "company_handle" then
      match SentText(v)
      case None => None
      case Some(t) => if column == "title" then Some(job.(title := t)) else Some(job.(companyHandle := t))
    else Some(job)
  }

  /** The whole SET list applied to a row, in key order. */
  function Assigned(job: Job, data: seq<Entry>): Option<Job>
    decreases |data|
  {
    if data == [] then Some(job)
    else
      match AssignColumn(job, ColumnFor(UpdateColumns, data[0].key), data[0].value)
      case None => None
      case Some(next) => Assigned(next, data[1..])
  }

  /** The value a column takes: the one the data gives it, or else the old
      one. */
  function NewValue(data: seq<Entry>, key: string, previous: JsValue): JsValue
  {
    match Get(data, key)
    case Some(v) => v
    case None => previous
  }

  /** The first key of an object is none of the rest's keys. */
  lemma {:induction false} RestOmitsFirst(data: JsObject)
    requires |data| > 0
    ensures KeysDistinct(data[1..])
    ensures Get(data[1..], data[0].key).None?
  {
    var rest := data[1..];
    forall i | 0 <= i < |rest| ensures Keys(rest)[i] != data[0].key {
      assert rest[i] == data[i + 1];
    }
  }

  /** An update leaves no row exactly when it sets the title or the company
      handle to NULL. */
  lemma {:induction false} AssignedNull(job: Job, data: JsObject)
    decreases |data|
    ensures Assigned(job, data).None? <==>
      Get(data, "title") == Some(Null) || Get(data, "company_handle") == Some(Null)
  {
    if data != [] {
      RestOmitsFirst(data);
      var next := AssignColumn(job, ColumnFor(UpdateColumns, data[0].key), data[0].value);
      if next.Some? {
        AssignedNull(next.value, data[1..]);
      }
    }
  }

  /** Otherwise each column holds the value the data gives it (the text
      sent, for the text columns) and every other column keeps its old
      value. */
  lemma {:induction false} AssignedColumns(job: Job, data: JsObject)
    requires Assigned(job, data).Some?
    decreases |data|
    ensures var r := Assigned(job, data).value;
      && r.salary == NewValue(data, "salary", job.salary)
      && r.equity == NewValue(data, "equity", job.equity)
      && Some(r.title) == SentText(NewValue(data, "title", Str(job.title)))
      && Some(r.companyHandle) == SentText(NewValue(data, "company_handle", Str(job.companyHandle)))
  {
    if data != [] {
      RestOmitsFirst(data);
      var next := AssignColumn(job, ColumnFor(UpdateColumns, data[0].key), data[0].value);
      AssignedColumns(next.value, data[1..]);
    }
  }

  /** The jobs table, one row per title. */
  class JobTable {
    var rows: map<string, Job>

    /** Each row is filed under its own title. */
    ghost predicate Valid()
      reads this
    {
      forall t :: t in rows ==> rows[t].title == t
    }

    constructor ()
      ensures Valid() && rows == map[]
    {
      rows := map[];
    }

    /** `Job.create`: a title already in the table is refused as a duplicate
        and nothing is written. Otherwise the insert runs: `refusal` is the
        database's answer to it (a foreign key, a column type), which the
        model takes as given; a refused insert writes nothing, an accepted
        one adds the row and returns it. */
    method Create(title: string, salary: JsValue, equity: JsValue, companyHandle: string, refusal: Option<Error>)
      returns (r: Result<Job>)
      requires Valid()
      modifies this
      ensures Valid()
      ensures title in old(rows) ==> r == Err(BadRequest("Duplicate job: " + title))
      ensures title !in old(rows) && refusal.Some? ==> r == Err(refusal.value)
      ensures r.Err? ==> rows == old(rows)
      ensures title !in old(rows) && refusal.None? ==>
        r == Ok(Job(title, salary, equity, companyHandle)) && rows == old(rows)[title := r.value]
    {
      if title in rows {
        return Err(BadRequest("Duplicate job: " + title));
      }
      if refusal.Some? {
        return Err(refusal.value);
      }
      var job := Job(title, salary, equity, companyHandle);
      rows := rows[title := job];
      return Ok(job);
    }

    /** `Job.update`: no data is refused before any query. `refusal` is the
        database's answer to the statement and its parameters before any row
        is looked at (an unknown column, a value its column cannot take),
        which the model takes as given; a refused statement changes nothing.
        A title with no row is not found. Otherwise the matched row takes the
        data's values and is returned, renamed if the data gives it a new
        title; a NULL title or company handle, or a new title another row
        holds, is refused on that row and changes nothing. */
    method Update(title: string, data: JsObject, refusal: Option<Error>) returns (r: Result<Job>)
      requires Valid()
      modifies this
      ensures Valid()
      ensures |data| == 0 ==> r == Err(BadRequest("No data"))
      ensures |data| > 0 && refusal.Some? ==> r == Err(refusal.value)
      ensures |data| > 0 && refusal.None? && title !in old(rows) ==>
        r == Err(NotFound("No job: " + title))
      ensures |data| > 0 && refusal.None? && title in old(rows) && Assigned(old(rows)[title], data).None? ==>
        r == Err(DatabaseError("null value in a not-null column"))
      ensures r.Err? ==> rows == old(rows)
      ensures r.Ok? ==>
        && |data| > 0 && refusal.None? && title in old(rows)
        && Assigned(old(rows)[title], data) == Some(r.value)
        && (r.value.title == title || r.value.title !in old(rows))
        && rows == old(rows) - {title} + map[r.value.title := r.value]
      ensures |data| > 0 && refusal.None? && title in old(rows) && Assigned(old(rows)[title], data).Some? ==>
        var job := Assigned(old(rows)[title], data).value;
        (job.title == title || job.title !in old(rows)) ==> r == Ok(job)
    {
      var query := UpdateQuery(title, data);
      if query.Err? {
        return Err(query.error);
      }
      if refusal.Some? {
        return Err(refusal.value);
      }
      if title !in rows {
        return Err(NotFound("No job: " + title));
      }
      var updated := Assigned(rows[title], data);
      if updated.None? {
        return Err(DatabaseError("null value in a not-null column"));
      }
      var job := updated.value;
      if job.title != title && job.title in rows {
        return Err(DatabaseError("duplicate job title: " + job.title));
      }
      rows := rows - {title} + map[job.title := job];
      return Ok(job);
    }

    /** `Job.remove`: a title with no row is not found; otherwise exactly
        that row is deleted. */
    method Remove(title: string) returns (r: Result<()>)
      requires Valid()
      modifies this
      ensures Valid()
      ensures title !in old(rows) ==> r == Err(NotFound("No job: " + title)) && rows == old(rows)
      ensures title in old(rows) ==> r == Ok(()) && rows == old(rows) - {title}
    {
      if title !in rows {
        return Err(NotFound("No job: " + title));
      }
      rows := rows - {title};
      return Ok(());
    }
  }
}
