/** helpers/sql.js: the builders that turn a partial object into the text of
    a parameterised SQL clause list (`setCols`) and the values bound to its
    `$1 … $N` placeholders (`values`). */
module Sql {
  import opened Js
  import opened Text
  import opened ExpressError

  /** The `{ setCols, values }` a builder returns. */
  datatype Clause = Clause(setCols: string, values: seq<JsValue>)

  /** `jsToSql`: field name to column name. */
  type ColumnMap = map<string, string>

  /** `jsToSql[key] || key`: the mapped column, unless it is missing or empty. */
  function ColumnFor(jsToSql: ColumnMap, key: string): string
  {
    if key in jsToSql && jsToSql[key] != "" then jsToSql[key] else key
  }

  /** No column named by the keys of `data` holds a `$` (a `$` in a column
      name would read as one more placeholder). */
  predicate ColumnsWithoutDollar(keys: seq<string>, jsToSql: ColumnMap)
  {
    forall i :: 0 <= i < |keys| ==> '$' !in ColumnFor(jsToSql, keys[i])
  }
  /** No column of a key the job search knows (`title`, `minSalary`,
      `hasEquity`) holds a `$`; the column of any other key never reaches
      the text. */
  predicate JobColumnsWithoutDollar(jsToSql: ColumnMap)
  {
    && '$' !in ColumnFor(jsToSql, "title")
    && '$' !in ColumnFor(jsToSql, "minSalary")
    && '$' !in ColumnFor(jsToSql, "hasEquity")
  }


  /** A column name in double quotes. */
  function Quote(column: string): string
  {
    "\"" + column + "\""
  }

  /** `$n` */
  function Param(n: nat): string
  {
    "$" + DecimalString(n)
  }

  /** `"${column}"=$${n}`: the text every fragment is built from. */
  function Assignment(column: string, n: nat): string
  {
    Quote(column) + "=" + Param(n)
  }

  lemma AssignmentPlaceholders(column: string, n: nat)
    requires '$' !in column
    ensures Placeholders(Assignment(column, n)) == [n]
  {
    var head := Quote(column) + "=";
    PlaceholdersSkip(head, Param(n));
    PlaceholderOf(n);
  }

  // ---------------------------------------------------------------------
  // sqlForPartialUpdate

  /** `keys.map((colName, idx) => `"${jsToSql[colName] || colName}"=$${idx + 1}`)` */
  function UpdateFragments(keys: seq<string>, jsToSql: ColumnMap): (cols: seq<string>)
    ensures |cols| == |keys|
  {
    seq(|keys|, i requires 0 <= i < |keys| => Assignment(ColumnFor(jsToSql, keys[i]), i + 1))
  }

  /** An object with no keys is refused with "No data"; otherwise the values
      are the object's own values in key order, untouched (nulls included),
      and the text holds exactly the placeholders `$1 … $N`, one per value,
      in that order. */
  function SqlForPartialUpdate(data: JsObject, jsToSql: ColumnMap): (r: Result<Clause>)
    ensures r.Err? <==> |data| == 0
    ensures r.Err? ==> r.error == BadRequest("No data")
    ensures r.Ok? ==> r.value.values == Values(data)
    ensures r.Ok? && ColumnsWithoutDollar(Keys(data), jsToSql) ==>
      Placeholders(r.value.setCols) == Numbers(1, |r.value.values|)
  {
    if |data| == 0 then Err(BadRequest("No data"))
    else
      var cols := UpdateFragments(Keys(data), jsToSql);
      UpdatePlaceholders(Keys(data), jsToSql);
      Ok(Clause(Join(cols, ", "), Values(data)))
  }

  lemma UpdatePlaceholders(keys: seq<string>, jsToSql: ColumnMap)
    ensures ColumnsWithoutDollar(keys, jsToSql) ==>
      Placeholders(Join(UpdateFragments(keys, jsToSql), ", ")) == Numbers(1, |keys|)
  {
    if ColumnsWithoutDollar(keys, jsToSql) {
      var cols := UpdateFragments(keys, jsToSql);
      forall i | 0 <= i < |cols| ensures Placeholders(cols[i]) == [1 + i] {
        AssignmentPlaceholders(ColumnFor(jsToSql, keys[i]), i + 1);
      }
      PlaceholdersOfJoin(cols, ", ");
      PlaceholdersNumbered(cols, 1);
    }
  }

  /** Fragment `i` assigns the column of key `i` (its mapping, or the key
      itself when `jsToSql` has none or maps it to the falsy `""`) from
      placeholder `i + 1`. */
  lemma UpdateFragmentAt(keys: seq<string>, jsToSql: ColumnMap, i: nat)
    requires i < |keys|
    ensures keys[i] !in jsToSql ==>
      UpdateFragments(keys, jsToSql)[i] == Quote(keys[i]) + "=" + Param(i + 1)
    ensures keys[i] in jsToSql && jsToSql[keys[i]] != "" ==>
      UpdateFragments(keys, jsToSql)[i] == Quote(jsToSql[keys[i]]) + "=" + Param(i + 1)
    ensures keys[i] in jsToSql && jsToSql[keys[i]] == "" ==>
      UpdateFragments(keys, jsToSql)[i] == Quote(keys[i]) + "=" + Param(i + 1)
  {
  }

  // ---------------------------------------------------------------------
  // The type checks of the two search builders

  /** `if (data[key] && typeof data[key] !== want) throw …` */
  datatype TypeRule = TypeRule(key: string, want: JsType)

  const CompanyRules: seq<TypeRule> :=
    [TypeRule("name", StringType), TypeRule("minEmployees", NumberType), TypeRule("maxEmployees", NumberType)]

  const JobRules: seq<TypeRule> :=
    [TypeRule("title", StringType), TypeRule("minSalary", NumberType), TypeRule("hasEquity", BooleanType)]

  /** Only a truthy value of the wrong type breaks a rule. */
  predicate Violates(data: seq<Entry>, rule: TypeRule)
  {
    TruthyAt(data, rule.key) && TypeOf(Get(data, rule.key).value) != rule.want
  }

  function TypeName(t: JsType): string
  {
    match t
    case StringType => "string"
    case NumberType => "number"
    case BooleanType => "boolean"
    case ObjectType => "object"
  }

  function TypeMessage(rule: TypeRule): string
  {
    rule.key + " requires a " + TypeName(rule.want) + " input"
  }

  /** The rules are checked in order; the first broken one is thrown. */
  function FirstViolation(data: seq<Entry>, rules: seq<TypeRule>): (r: Option<TypeRule>)
    ensures r.None? <==> forall i :: 0 <= i < |rules| ==> !Violates(data, rules[i])
    ensures r.Some? ==> exists i :: 0 <= i < |rules| && rules[i] == r.value && Violates(data, r.value) &&
                                    forall j :: 0 <= j < i ==> !Violates(data, rules[j])
  {
    if rules == [] then None
    else if Violates(data, rules[0]) then Some(rules[0])
    else
      var r := FirstViolation(data, rules[1..]);
      assert forall i :: 1 <= i < |rules| ==> rules[i] == rules[1..][i - 1];
      r
  }

  // ---------------------------------------------------------------------
  // The operators the search fields stand for

  datatype Op = Eq | Like | Gte | Lte | Gt

  /** The predicate a search field means, as SQL text bound to `$n`. */
  function Predicate(op: Op, column: string, n: nat): string
  {
    match op
    case Eq => Quote(column) + "=" + Param(n)
    case Like => "LOWER(" + Quote(column) + ")" + " LIKE " + Param(n)
    case Gte => Quote(column) + ">=" + Param(n)
    case Lte => Quote(column) + "<=" + Param(n)
    case Gt => Quote(column) + ">" + Param(n)
  }

  /** `"%" + s.toLowerCase() + "%"`: the LIKE pattern for a partial,
      case-insensitive match. */
  function LikePattern(s: string): (p: string)
    ensures |p| == |s| + 2 && p[0] == '%' && p[|p| - 1] == '%'
    ensures p[1..|p| - 1] == Lower(s)
  {
    "%" + Lower(s) + "%"
  }

  /** `qry.replace('=', op)` on an assignment whose column has no `=`. */
  lemma ReplaceEquals(column: string, n: nat, op: string)
    requires '=' !in column
    ensures ReplaceFirst(Assignment(column, n), "=", op) == Quote(column) + op + Param(n)
  {
    var a := Quote(column);
    assert Assignment(column, n) == a + ['='] + Param(n);
    assert "=" == ['='];
    ReplaceFirstChar(a, '=', Param(n), op);
  }

  /** The LIKE rewrite of the `name`/`title` fragment when the field's column
      is the field itself: `"key"` becomes `LOWER("key")`, then the first `=`
      becomes ` LIKE `. */
  lemma ReplaceLike(key: string, quoted: string, lowered: string, n: nat)
    requires quoted == Quote(key) && lowered == "LOWER(" + Quote(key) + ")"
    requires '=' !in key
    ensures ReplaceFirst(ReplaceFirst(Assignment(key, n), quoted, lowered), "=", " LIKE ")
      == Predicate(Like, key, n)
  {
    var b := Param(n);
    assert Assignment(key, n) == quoted + ("=" + b);
    ReplaceFirstAtStart(quoted, "=" + b, lowered);
    assert lowered + ("=" + b) == lowered + ['='] + b;
    assert '=' !in lowered;
    ReplaceFirstChar(lowered, '=', b, " LIKE ");
  }

  /** A rewrite of the first `pat` by `rep` keeps the single placeholder of
      an assignment. */
  lemma RewriteKeepsPlaceholder(s: string, pat: string, rep: string, n: nat)
    requires Placeholders(s) == [n]
    requires pat != [] && rep != [] && '$' !in pat && '$' !in rep
    requires !IsDigit(pat[0]) && !IsDigit(rep[0])
    ensures Placeholders(ReplaceFirst(s, pat, rep)) == [n]
  {
    ReplaceFirstKeepsPlaceholders(s, pat, rep);
  }

  // ---------------------------------------------------------------------
  // sqlForCompanyFilter

  /** The callback of `keys.map` for the company search. */
  function CompanyFragment(key: string, n: nat, jsToSql: ColumnMap): string
  {
    var qry := Assignment(ColumnFor(jsToSql, key), n);
    if key == "name" then ReplaceFirst(ReplaceFirst(qry, "\"name\"", "LOWER(\"name\")"), "=", " LIKE ")
    else if key == "minEmployees" then ReplaceFirst(qry, "=", ">=")
    else if key == "maxEmployees" then ReplaceFirst(qry, "=", "<=")
    else qry
  }

  function CompanyFragments(keys: seq<string>, jsToSql: ColumnMap): (cols: seq<string>)
    ensures |cols| == |keys|
  {
    seq(|keys|, i requires 0 <= i < |keys| => CompanyFragment(keys[i], i + 1, jsToSql))
  }

  /** The operator each company search field stands for. */
  function CompanyOp(key: string): Op
  {
    if key == "name" then Like
    else if key == "minEmployees" then Gte
    else if key == "maxEmployees" then Lte
    else Eq
  }

  /** The company fragment is the predicate its field stands for: `name`
      a case-insensitive LIKE, `minEmployees` `>=`, `maxEmployees` `<=`, any
      other key an equality; so long as the column holds no `=` and `name`
      is stored in a column of that name. */
  lemma CompanyFragmentIsPredicate(key: string, n: nat, jsToSql: ColumnMap)
    requires '=' !in ColumnFor(jsToSql, key)
    requires key == "name" ==> ColumnFor(jsToSql, key) == "name"
    ensures CompanyFragment(key, n, jsToSql) == Predicate(CompanyOp(key), ColumnFor(jsToSql, key), n)
  {
    if key == "name" {
      CompanyNameFragment(n, jsToSql);
    } else if key == "minEmployees" || key == "maxEmployees" {
      CompanyCompareFragment(key, n, jsToSql);
    }
  }

  lemma CompanyNameFragment(n: nat, jsToSql: ColumnMap)
    requires ColumnFor(jsToSql, "name") == "name"
    ensures CompanyFragment("name", n, jsToSql) == Predicate(Like, "name", n)
  {
    assert "\"name\"" == Quote("name") && "LOWER(\"name\")" == "LOWER(" + Quote("name") + ")";
    ReplaceLike("name", "\"name\"", "LOWER(\"name\")", n);
  }

  lemma CompanyCompareFragment(key: string, n: nat, jsToSql: ColumnMap)
    requires key == "minEmployees" || key == "maxEmployees"
    requires '=' !in ColumnFor(jsToSql, key)
    ensures CompanyFragment(key, n, jsToSql) == Predicate(CompanyOp(key), ColumnFor(jsToSql, key), n)
  {
    ReplaceEquals(ColumnFor(jsToSql, key), n, if key == "minEmployees" then ">=" else "<=");
  }

  lemma CompanyFragmentPlaceholders(key: string, n: nat, jsToSql: ColumnMap)
    requires '$' !in ColumnFor(jsToSql, key)
    ensures Placeholders(CompanyFragment(key, n, jsToSql)) == [n]
  {
    var qry := Assignment(ColumnFor(jsToSql, key), n);
    AssignmentPlaceholders(ColumnFor(jsToSql, key), n);
    if key == "name" {
      LikeKeepsPlaceholder(qry, "\"name\"", "LOWER(\"name\")", n);
    } else if key == "minEmployees" || key == "maxEmployees" {
      RewriteKeepsPlaceholder(qry, "=", if key == "minEmployees" then ">=" else "<=", n);
    }
  }

  /** Both rewrites of a LIKE fragment keep its single placeholder. */
  lemma LikeKeepsPlaceholder(qry: string, quoted: string, lowered: string, n: nat)
    requires Placeholders(qry) == [n]
    requires quoted == "\"name\"" || quoted == "\"title\""
    requires lowered == "LOWER(\"name\")" || lowered == "LOWER(\"title\")"
    ensures Placeholders(ReplaceFirst(ReplaceFirst(qry, quoted, lowered), "=", " LIKE ")) == [n]
  {
    RewriteKeepsPlaceholder(qry, quoted, lowered, n);
    RewriteKeepsPlaceholder(ReplaceFirst(qry, quoted, lowered), "=", " LIKE ", n);
  }

  /** `vals[i] = `%${vals[i].toLowerCase()}%`` at `i = vals.findIndex(v =>
      typeof v === 'string')`. The search never reaches it without a string
      among the values (see `TruthyValueFound`); were there none, nothing
      would be rewritten here. */
  function RewriteFirstString(vals: seq<JsValue>): (r: seq<JsValue>)
    ensures |r| == |vals|
  {
    var i := FindIndexOfType(vals, StringType);
    if i < 0 then vals else vals[i := Str(LikePattern(vals[i].s))]
  }

  /** `vals[i] = '0'` at `i = vals.findIndex(v => typeof v === 'boolean')`. */
  function RewriteFirstBoolean(vals: seq<JsValue>): (r: seq<JsValue>)
    ensures |r| == |vals|
  {
    var i := FindIndexOfType(vals, BooleanType);
    if i < 0 then vals else vals[i := Str("0")]
  }

  /** The company search: no keys is "no filter" (not an error); a truthy
      `name`, `minEmployees` or `maxEmployees` of the wrong type is refused,
      and falsy ones never are. */
  function CompanyFilter(data: JsObject, jsToSql: ColumnMap): (r: Result<Option<Clause>>)
    ensures r == Ok(None) <==> |data| == 0
    ensures r.Err? <==> |data| > 0 && exists i :: 0 <= i < |CompanyRules| && Violates(data, CompanyRules[i])
    ensures r.Err? ==> exists i :: 0 <= i < |CompanyRules| && Violates(data, CompanyRules[i]) &&
                                  r.error == BadRequest(TypeMessage(CompanyRules[i])) &&
                                  forall j :: 0 <= j < i ==> !Violates(data, CompanyRules[j])
  {
    if |data| == 0 then Ok(None)
    else match FirstViolation(data, CompanyRules)
      case Some(rule) => Err(BadRequest(TypeMessage(rule)))
      case None =>
        var vals := if TruthyAt(data, "name") then RewriteFirstString(Values(data)) else Values(data);
        Ok(Some(Clause(Join(CompanyFragments(Keys(data), jsToSql), ", "), vals)))
  }

  /** A search that passes has one value per key; when no column name it
      uses holds a `$`, the text holds exactly the placeholders `$1 … $N`, in
      key order. */
  lemma CompanyFilterPlaceholders(data: JsObject, jsToSql: ColumnMap)
    requires CompanyFilter(data, jsToSql).Ok? && |data| > 0
    ensures var c := CompanyFilter(data, jsToSql).value.value;
      && |c.values| == |data|
      && (ColumnsWithoutDollar(Keys(data), jsToSql) ==> Placeholders(c.setCols) == Numbers(1, |c.values|))
  {
    if ColumnsWithoutDollar(Keys(data), jsToSql) {
      var cols := CompanyFragments(Keys(data), jsToSql);
      forall i | 0 <= i < |cols| ensures Placeholders(cols[i]) == [1 + i] {
        CompanyFragmentPlaceholders(Keys(data)[i], i + 1, jsToSql);
      }
      PlaceholdersOfJoin(cols, ", ");
      PlaceholdersNumbered(cols, 1);
    }
  }

  /** A truthy value of the type being searched for is among the values, so
      `findIndex` finds one, at or before that value's own position. */
  lemma TruthyValueFound(data: JsObject, key: string, t: JsType, at: nat)
    requires at < |data| && data[at].key == key && TypeOf(data[at].value) == t
    ensures 0 <= FindIndexOfType(Values(data), t) <= at
  {
    assert TypeOf(Values(data)[at]) == t;
  }

  /** The values of a passing company search: the object's values in key
      order, except that when `name` is truthy the first string value becomes
      its LIKE pattern; that is `name`'s own value (at position `at`) unless
      an earlier key holds a string. */
  lemma CompanyFilterValues(data: JsObject, jsToSql: ColumnMap)
    requires CompanyFilter(data, jsToSql).Ok? && |data| > 0
    ensures var vals := CompanyFilter(data, jsToSql).value.value.values;
      var i := FindIndexOfType(Values(data), StringType);
      var at := IndexOfKey(Keys(data), "name");
      && |vals| == |data|
      && (!TruthyAt(data, "name") ==> vals == Values(data))
      && (TruthyAt(data, "name") ==>
            && 0 <= i <= at && data[at].key == "name"
            && vals[i] == Str(LikePattern(data[i].value.s))
            && (forall j :: 0 <= j < |data| && j != i ==> vals[j] == data[j].value)
            && (i == at <==> forall j :: 0 <= j < at ==> TypeOf(data[j].value) != StringType))
  {
    var vals := CompanyFilter(data, jsToSql).value.value.values;
    assert vals == if TruthyAt(data, "name") then RewriteFirstString(Values(data)) else Values(data);
    if TruthyAt(data, "name") {
      var at := IndexOfKey(Keys(data), "name");
      assert data[at].key == Keys(data)[at];
      GetAt(data, at);
      assert TypeOf(data[at].value) == StringType by {
        assert !Violates(data, CompanyRules[0]);
      }
      TruthyValueFound(data, "name", StringType, at);
    }
  }

  // ---------------------------------------------------------------------
  // sqlForJobFilter

  /** `data` once a falsy `hasEquity` is taken out (a truthy one stays). */
  function DropFalsyEquity(data: JsObject): (d: JsObject)
    ensures "hasEquity" in Keys(d) ==> TruthyAt(d, "hasEquity")
    ensures forall e :: e in d <==> e in data && (e.key != "hasEquity" || TruthyAt(data, "hasEquity"))
  {
    if TruthyAt(data, "hasEquity") then data
    else
      WithoutEntries(data, "hasEquity");
      var d := Without(data, "hasEquity");
      assert "hasEquity" !in Keys(d) by {
        forall i | 0 <= i < |d| ensures Keys(d)[i] != "hasEquity" {
          assert d[i] in d;
        }
      }
      d
  }

  /** The callback of `keys.map` for the job search: `None` is the
      `undefined` returned for a key it does not know. */
  function JobFragment(key: string, n: nat, jsToSql: ColumnMap, d: seq<Entry>): Option<string>
  {
    var qry := Assignment(ColumnFor(jsToSql, key), n);
    if key == "title" then Some(ReplaceFirst(ReplaceFirst(qry, "\"title\"", "LOWER(\"title\")"), "=", " LIKE "))
    else if key == "minSalary" then Some(ReplaceFirst(qry, "=", ">="))
    else if key == "hasEquity" && TruthyAt(d, "hasEquity") then Some(ReplaceFirst(qry, "=", ">"))
    else None
  }

  function JobFragments(keys: seq<string>, jsToSql: ColumnMap, d: seq<Entry>): (cols: seq<Option<string>>)
    ensures |cols| == |keys|
  {
    seq(|keys|, i requires 0 <= i < |keys| => JobFragment(keys[i], i + 1, jsToSql, d))
  }

  /** `join` writes `undefined` items as empty text. */
  function Rendered(cols: seq<Option<string>>): (parts: seq<string>)
    ensures |parts| == |cols|
  {
    seq(|cols|, i requires 0 <= i < |cols| => match cols[i] case None => "" case Some(t) => t)
  }

  /** The values of the job search: the title rewrite first, then the
      `hasEquity` one. */
  function JobValues(d: seq<Entry>): (vals: seq<JsValue>)
    ensures |vals| == |d|
  {
    var v1 := if TruthyAt(d, "title") then RewriteFirstString(Values(d)) else Values(d);
    if TruthyAt(d, "hasEquity") then RewriteFirstBoolean(v1) else v1
  }

  /** The job search: no keys is "no filter" (not an error); a truthy
      `title`, `minSalary` or `hasEquity` of the wrong type is refused, and
      falsy ones never are. */
  function JobFilter(data: JsObject, jsToSql: ColumnMap): (r: Result<Option<Clause>>)
    ensures r == Ok(None) <==> |data| == 0
    ensures r.Err? <==> |data| > 0 && exists i :: 0 <= i < |JobRules| && Violates(data, JobRules[i])
    ensures r.Err? ==> exists i :: 0 <= i < |JobRules| && Violates(data, JobRules[i]) &&
                                  r.error == BadRequest(TypeMessage(JobRules[i])) &&
                                  forall j :: 0 <= j < i ==> !Violates(data, JobRules[j])
  {
    if |data| == 0 then Ok(None)
    else match FirstViolation(data, JobRules)
      case Some(rule) => Err(BadRequest(TypeMessage(rule)))
      case None =>
        var d := DropFalsyEquity(data);
        Ok(Some(Clause(Join(Rendered(JobFragments(Keys(d), jsToSql, d)), ", "), JobValues(d))))
  }

  /** The operator each job search field stands for; other keys stand for
      nothing. */
  function JobOp(key: string): Option<Op>
  {
    if key == "title" then Some(Like)
    else if key == "minSalary" then Some(Gte)
    else if key == "hasEquity" then Some(Gt)
    else None
  }

  /** The job fragment is the predicate its field stands for: `title` a
      case-insensitive LIKE, `minSalary` `>=`, a truthy `hasEquity` a strict
      `>`; any other key gives `undefined`. */
  lemma JobFragmentIsPredicate(key: string, n: nat, jsToSql: ColumnMap, d: seq<Entry>)
    requires '=' !in ColumnFor(jsToSql, key)
    requires key == "title" ==> ColumnFor(jsToSql, key) == "title"
    requires key == "hasEquity" ==> TruthyAt(d, "hasEquity")
    ensures JobOp(key).None? ==> JobFragment(key, n, jsToSql, d) == None
    ensures JobOp(key).Some? ==>
      JobFragment(key, n, jsToSql, d) == Some(Predicate(JobOp(key).value, ColumnFor(jsToSql, key), n))
  {
    var col := ColumnFor(jsToSql, key);
    if key == "title" {
      ReplaceLike("title", "\"title\"", "LOWER(\"title\")", n);
      assert "LOWER(\"title\")" + " LIKE $" + DecimalString(n) == Predicate(Like, "title", n);
    } else if key == "minSalary" {
      ReplaceEquals(col, n, ">=");
    } else if key == "hasEquity" {
      ReplaceEquals(col, n, ">");
    }
  }

  /** The numbers `first + i` of the keys the job search knows, in order:
      a key it does not know still uses up its number. */
  function KnownNumbers(keys: seq<string>, first: nat): seq<nat>
  {
    if keys == [] then []
    else (if JobOp(keys[0]).Some? then [first] else []) + KnownNumbers(keys[1..], first + 1)
  }

  /** A job fragment holds the one placeholder of its key, and the empty
      text of an unknown key holds none. */
  lemma JobFragmentPlaceholders(key: string, n: nat, jsToSql: ColumnMap, d: seq<Entry>)
    requires JobOp(key).Some? ==> '$' !in ColumnFor(jsToSql, key)
    requires key == "hasEquity" ==> TruthyAt(d, "hasEquity")
    ensures Placeholders(Rendered([JobFragment(key, n, jsToSql, d)])[0]) == if JobOp(key).Some? then [n] else []
  {
    var qry := Assignment(ColumnFor(jsToSql, key), n);
    if key == "title" {
      AssignmentPlaceholders(ColumnFor(jsToSql, key), n);
      LikeKeepsPlaceholder(qry, "\"title\"", "LOWER(\"title\")", n);
    } else if key == "minSalary" || key == "hasEquity" {
      AssignmentPlaceholders(ColumnFor(jsToSql, key), n);
      RewriteKeepsPlaceholder(qry, "=", if key == "minSalary" then ">=" else ">", n);
    }
  }

  /** Items whose placeholder is `first + i` for the keys the search knows
      and none otherwise give, together, the known keys' numbers. */
  lemma {:induction false} KnownPlaceholdersOfAll(parts: seq<string>, keys: seq<string>, first: nat)
    requires |parts| == |keys|
    requires forall i :: 0 <= i < |parts| ==>
      Placeholders(parts[i]) == if JobOp(keys[i]).Some? then [first + i] else []
    ensures PlaceholdersOfAll(parts) == KnownNumbers(keys, first)
  {
    if parts != [] {
      KnownPlaceholdersOfAll(parts[1..], keys[1..], first + 1);
    }
  }

  /** The rendered job fragments hold the numbers of the known keys. */
  lemma JobPlaceholdersOfAll(keys: seq<string>, jsToSql: ColumnMap, d: seq<Entry>)
    requires JobColumnsWithoutDollar(jsToSql)
    requires "hasEquity" in keys ==> TruthyAt(d, "hasEquity")
    ensures PlaceholdersOfAll(Rendered(JobFragments(keys, jsToSql, d))) == KnownNumbers(keys, 1)
  {
    var parts := Rendered(JobFragments(keys, jsToSql, d));
    forall i | 0 <= i < |parts|
      ensures Placeholders(parts[i]) == if JobOp(keys[i]).Some? then [1 + i] else []
    {
      JobFragmentPlaceholders(keys[i], 1 + i, jsToSql, d);
      assert parts[i] == Rendered([JobFragment(keys[i], 1 + i, jsToSql, d)])[0];
    }
    KnownPlaceholdersOfAll(parts, keys, 1);
  }

  lemma {:induction false} KnownNumbersAllKnown(keys: seq<string>, first: nat)
    requires forall i :: 0 <= i < |keys| ==> JobOp(keys[i]).Some?
    ensures KnownNumbers(keys, first) == Numbers(first, |keys|)
  {
    if keys != [] {
      KnownNumbersAllKnown(keys[1..], first + 1);
      assert Numbers(first, |keys|) == [first] + Numbers(first + 1, |keys| - 1);
    }
  }

  /** A passing job search whose falsy `hasEquity` was dropped: the key is
      gone from the text and its value from the values. When no column of a
      known key holds a `$`, the placeholders that remain are numbered by
      the keys that remain, so with only keys the search knows they are
      exactly `$1 … $N` for the N values. A key it does not know leaves no
      text, whatever its name, but still uses up its number. */
  lemma JobFilterPlaceholders(data: JsObject, jsToSql: ColumnMap)
    requires JobFilter(data, jsToSql).Ok? && |data| > 0
    ensures var c := JobFilter(data, jsToSql).value.value;
      var d := DropFalsyEquity(data);
      && |c.values| == |d|
      && (TruthyAt(data, "hasEquity") <==> "hasEquity" in Keys(d))
      && (!TruthyAt(data, "hasEquity") ==> forall v :: v in d <==> v in data && v.key != "hasEquity")
      && (JobColumnsWithoutDollar(jsToSql) ==> Placeholders(c.setCols) == KnownNumbers(Keys(d), 1))
      && (JobColumnsWithoutDollar(jsToSql) && (forall i :: 0 <= i < |d| ==> JobOp(d[i].key).Some?) ==>
            Placeholders(c.setCols) == Numbers(1, |c.values|))
  {
    var d := DropFalsyEquity(data);
    var keys := Keys(d);
    if TruthyAt(data, "hasEquity") {
      var v := Get(data, "hasEquity").value;
      var j :| 0 <= j < |data| && data[j] == Entry("hasEquity", v);
      assert Keys(d)[j] == "hasEquity";
    }
    if JobColumnsWithoutDollar(jsToSql) {
      JobPlaceholdersOfAll(keys, jsToSql, d);
      PlaceholdersOfJoin(Rendered(JobFragments(keys, jsToSql, d)), ", ");
      if forall i :: 0 <= i < |d| ==> JobOp(d[i].key).Some? {
        KnownNumbersAllKnown(keys, 1);
      }
    }
  }

  /** Rewriting a value into a string leaves the first boolean where it was. */
  lemma RewriteStringKeepsBoolean(vals: seq<JsValue>)
    ensures FindIndexOfType(RewriteFirstString(vals), BooleanType) == FindIndexOfType(vals, BooleanType)
  {
    var r := RewriteFirstString(vals);
    assert forall j :: 0 <= j < |vals| ==> (TypeOf(r[j]) == BooleanType <==> TypeOf(vals[j]) == BooleanType);
  }

  /** The values of a passing job search: the values of the object once a
      falsy `hasEquity` is dropped, in key order, except that a truthy
      `title` turns the first string value into its LIKE pattern and a
      truthy `hasEquity` turns the first boolean value into the text '0'. */
  lemma JobFilterValues(data: JsObject, jsToSql: ColumnMap)
    requires JobFilter(data, jsToSql).Ok? && |data| > 0
    ensures var vals := JobFilter(data, jsToSql).value.value.values;
      var d := DropFalsyEquity(data);
      var ti := FindIndexOfType(Values(d), StringType);
      var ei := FindIndexOfType(Values(d), BooleanType);
      && |vals| == |d|
      && (TruthyAt(d, "title") ==> 0 <= ti && vals[ti] == Str(LikePattern(d[ti].value.s)))
      && (TruthyAt(d, "hasEquity") ==> 0 <= ei && vals[ei] == Str("0"))
      && forall j :: 0 <= j < |d| && !(TruthyAt(d, "title") && j == ti) && !(TruthyAt(d, "hasEquity") && j == ei) ==>
           vals[j] == d[j].value
  {
    var d := DropFalsyEquity(data);
    assert JobFilter(data, jsToSql).value.value.values == JobValues(d);
    assert FirstViolation(data, JobRules).None?;
    if TruthyAt(d, "title") {
      assert !Violates(data, JobRules[0]);
      KeptValueFound(data, JobRules[0].key, JobRules[0].want);
    }
    if TruthyAt(d, "hasEquity") {
      assert !Violates(data, JobRules[2]);
      KeptValueFound(data, JobRules[2].key, JobRules[2].want);
    }
    JobValuesRewrites(d);
  }

  /** The two rewrites of the job values, each at the first value of its
      type, when there is one. */
  lemma JobValuesRewrites(d: seq<Entry>)
    requires TruthyAt(d, "title") ==> 0 <= FindIndexOfType(Values(d), StringType)
    requires TruthyAt(d, "hasEquity") ==> 0 <= FindIndexOfType(Values(d), BooleanType)
    ensures var vals := JobValues(d);
      var ti := FindIndexOfType(Values(d), StringType);
      var ei := FindIndexOfType(Values(d), BooleanType);
      && (TruthyAt(d, "title") ==> vals[ti] == Str(LikePattern(d[ti].value.s)))
      && (TruthyAt(d, "hasEquity") ==> vals[ei] == Str("0"))
      && forall j :: 0 <= j < |d| && !(TruthyAt(d, "title") && j == ti) && !(TruthyAt(d, "hasEquity") && j == ei) ==>
           vals[j] == d[j].value
  {
    var v0 := Values(d);
    if TruthyAt(d, "hasEquity") {
      RewriteStringKeepsBoolean(v0);
    }
  }

  /** A truthy value of the right type that survives the drop of a falsy
      `hasEquity` is among the remaining values, so `findIndex` finds one. */
  lemma KeptValueFound(data: JsObject, key: string, t: JsType)
    requires TruthyAt(DropFalsyEquity(data), key)
    requires !Violates(data, TypeRule(key, t))
    ensures 0 <= FindIndexOfType(Values(DropFalsyEquity(data)), t)
  {
    var d := DropFalsyEquity(data);
    var v := Get(d, key).value;
    var j :| 0 <= j < |d| && d[j] == Entry(key, v);
    assert d[j] in data;
    var k :| 0 <= k < |data| && data[k] == d[j];
    GetAt(data, k);
    TruthyValueFound(d, key, t, j);
  }

  // ---------------------------------------------------------------------
  // The builders as the source runs them: local arrays changed in place

  /** sqlForCompanyFilter, step by step. */
  method SqlForCompanyFilter(data: JsObject, jsToSql: ColumnMap) returns (r: Result<Option<Clause>>)
    ensures r == CompanyFilter(data, jsToSql)
  {
    var keys := Keys(data);
    if |keys| == 0 {
      return Ok(None);
    }
    var violation := FirstViolation(data, CompanyRules);
    if violation.Some? {
      return Err(BadRequest(TypeMessage(violation.value)));
    }
    var cols := MapKeys(keys, (k, n) => CompanyFragment(k, n, jsToSql));
    assert cols == CompanyFragments(keys, jsToSql);
    var vals := RewriteCompanyValues(data);
    r := Ok(Some(Clause(Join(cols, ", "), vals)));
  }

  /** Lines 41-45 of sqlForCompanyFilter: the value array rewritten in
      place. */
  method RewriteCompanyValues(data: seq<Entry>) returns (r: seq<JsValue>)
    ensures r == if TruthyAt(data, "name") then RewriteFirstString(Values(data)) else Values(data)
  {
    var vals := new JsValue[|data|](i requires 0 <= i < |data| => data[i].value);
    assert vals[..] == Values(data);
    if TruthyAt(data, "name") {
      var nameIdx := FindIndexOfType(vals[..], StringType);
      if nameIdx >= 0 {
        vals[nameIdx] := Str(LikePattern(vals[nameIdx].s));
      }
    }
    r := vals[..];
  }

  /** Lines 62-74 of sqlForJobFilter: a falsy `hasEquity` is spliced out of
      the key list and the object rebuilt without it. */
  method SpliceFalsyEquity(data: JsObject) returns (keys: seq<string>, obj: JsObject)
    ensures obj == DropFalsyEquity(data) && keys == Keys(obj)
  {
    keys, obj := Keys(data), data;
    if !TruthyAt(data, "hasEquity") {
      var hasEquityIdx := IndexOfKey(keys, "hasEquity");
      if hasEquityIdx >= 0 {
        keys := keys[..hasEquityIdx] + keys[hasEquityIdx + 1..];
        SpliceEquity(data, hasEquityIdx);
        obj := data[..hasEquityIdx] + data[hasEquityIdx + 1..];
      } else {
        NoEquityToDrop(data);
      }
    }
  }

  /** Splicing out the position of a falsy `hasEquity` is dropping it. */
  lemma SpliceEquity(data: JsObject, i: nat)
    requires i < |data| && Keys(data)[i] == "hasEquity" && !TruthyAt(data, "hasEquity")
    ensures DropFalsyEquity(data) == data[..i] + data[i + 1..]
    ensures Keys(data[..i] + data[i + 1..]) == Keys(data)[..i] + Keys(data)[i + 1..]
  {
    forall j | 0 <= j < |data| && j != i
      ensures data[j].key != "hasEquity"
    {
      assert data[i].key == "hasEquity";
    }
    WithoutAt(data, "hasEquity", i);
    KeysSplice(data, i);
  }

  /** An object without `hasEquity` has nothing to drop. */
  lemma NoEquityToDrop(data: JsObject)
    requires "hasEquity" !in Keys(data)
    ensures DropFalsyEquity(data) == data
  {
    KeyAbsent(data, "hasEquity");
    WithoutAbsent(data, "hasEquity");
  }

  /** sqlForJobFilter, step by step: the key list is spliced, the object
      rebuilt without a falsy `hasEquity`, and the value array rewritten in
      place. */
  method SqlForJobFilter(data: JsObject, jsToSql: ColumnMap) returns (r: Result<Option<Clause>>)
    ensures r == JobFilter(data, jsToSql)
  {
    var keys := Keys(data);
    if |keys| == 0 {
      return Ok(None);
    }
    var violation := FirstViolation(data, JobRules);
    if violation.Some? {
      return Err(BadRequest(TypeMessage(violation.value)));
    }
    var obj;
    keys, obj := SpliceFalsyEquity(data);
    var cols := MapKeys(keys, (k, n) => JobFragment(k, n, jsToSql, obj));
    assert cols == JobFragments(keys, jsToSql, obj);
    var vals := RewriteJobValues(obj);
    r := Ok(Some(Clause(Join(Rendered(cols), ", "), vals)));
  }

  /** Lines 93-103 of sqlForJobFilter: the value array rewritten in place. */
  method RewriteJobValues(obj: seq<Entry>) returns (r: seq<JsValue>)
    ensures r == JobValues(obj)
  {
    var vals := new JsValue[|obj|](i requires 0 <= i < |obj| => obj[i].value);
    assert vals[..] == Values(obj);
    if TruthyAt(obj, "title") {
      var titleIdx := FindIndexOfType(vals[..], StringType);
      if titleIdx >= 0 {
        vals[titleIdx] := Str(LikePattern(vals[titleIdx].s));
      }
    }
    if TruthyAt(obj, "hasEquity") {
      var equityIdx := FindIndexOfType(vals[..], BooleanType);
      if equityIdx >= 0 {
        vals[equityIdx] := Str("0");
      }
    }
    r := vals[..];
  }
}
