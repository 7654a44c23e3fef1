/** The JSON helpers of the schema checker: the index formatter, the
    recursive key finder, the flattening of errors with sub-errors, the
    version table and the ordering of validator errors by their text.
    The Draft 7 validator itself and `best_match` are parameters. */
module SchemaCheck {
  import opened Wrappers
  import opened Json
  import opened Text

  // ---------------------------------------------------------------------
  // format_as_index

  /** One component of a validation error's path: an object key or an array index. */
  datatype PathItem = Key(name: string) | Index(position: int)

  /** `repr(item)`: an integer in decimal, a string between quotes (double
      quotes when it holds a single quote and no double quote). */
  function Repr(item: PathItem): (s: string)
    ensures |s| >= 1
  {
    match item
    case Index(i) => IntToString(i)
    case Key(k) =>
      if '\'' in k && '"' !in k then "\"" + k + "\"" else "'" + k + "'"
  }

  function Reprs(indices: seq<PathItem>): (r: seq<string>)
    ensures |r| == |indices|
  {
    if indices == [] then [] else [Repr(indices[0])] + Reprs(indices[1..])
  }

  /** `format_as_index(container, indices)`: appends one `[repr(i)]` group
      per index and changes nothing else; with no indices it returns the
      container unchanged. */
  function FormatAsIndex(container: string, indices: seq<PathItem>): (path: string)
    ensures path == container + Brackets(indices)
  {
    if |indices| == 0 then container
    else
      JoinedIsBrackets(indices);
      var j := Join("][", Reprs(indices));
      assert container + "[" + j + "]" == container + ("[" + j + "]");
      container + "[" + j + "]"
  }

  /** Reference reading of an index path: one bracket group per component. */
  function Brackets(indices: seq<PathItem>): string {
    if indices == [] then "" else "[" + Repr(indices[0]) + "]" + Brackets(indices[1..])
  }

  lemma {:induction false} BracketsAppend(a: seq<PathItem>, b: seq<PathItem>)
    ensures Brackets(a + b) == Brackets(a) + Brackets(b)
  {
    if a != [] {
      assert (a + b)[0] == a[0] && (a + b)[1..] == a[1..] + b;
      BracketsAppend(a[1..], b);
      var g := "[" + Repr(a[0]) + "]";
      assert Brackets(a + b) == g + Brackets(a[1..] + b);
      assert Brackets(a) == g + Brackets(a[1..]);
      ConcatAssociates(g, Brackets(a[1..]), Brackets(b));
    } else {
      assert a + b == b;
    }
  }

  lemma {:induction false} JoinedIsBrackets(indices: seq<PathItem>)
    requires indices != []
    ensures "[" + Join("][", Reprs(indices)) + "]" == Brackets(indices)
  {
    var r0 := Repr(indices[0]);
    var rest := indices[1..];
    assert Reprs(indices) == [r0] + Reprs(rest);
    if rest == [] {
      assert Join("][", Reprs(indices)) == r0;
      assert Brackets(indices) == "[" + r0 + "]" + "";
    } else {
      JoinedIsBrackets(rest);
      var j := Join("][", Reprs(rest));
      assert Join("][", Reprs(indices)) == r0 + "][" + j;
      assert "][" == "]" + "[";
      calc {
        "[" + Join("][", Reprs(indices)) + "]";
        "[" + (r0 + "][" + j) + "]";
        ("[" + r0 + "]") + ("[" + j + "]");
        ("[" + r0 + "]") + Brackets(rest);
      }
    }
  }

  /** Formatting a nested path in two steps, as the flattener does, equals
      formatting the concatenated path once. */
  lemma {:induction false} FormatAsIndexNested(container: string, outer: seq<PathItem>, inner: seq<PathItem>)
    ensures FormatAsIndex(FormatAsIndex(container, outer), inner)
         == FormatAsIndex(container, outer + inner)
  {
    BracketsAppend(outer, inner);
    ConcatAssociates(container, Brackets(outer), Brackets(inner));
  }

  lemma ConcatAssociates(x: string, y: string, z: string)
    ensures (x + y) + z == x + (y + z)
  {
  }

  // ---------------------------------------------------------------------
  // find_all_instances_key

  /** Whether field `k` of an object is descended into: its value is a
      dictionary and its key is not the one to skip. */
  predicate Descended(fields: seq<(string, Json)>, k: nat, skip: Option<string>)
    requires k < |fields|
  {
    fields[k].1.JObj? && (skip.None? || fields[k].0 != skip.value)
  }

  /** The values the generator yields for the dictionary `j`: first the
      node's own value under `key`, then the yields of every descended field,
      in field order. A node that is not a dictionary yields nothing. */
  function FindAll(j: Json, key: string, skip: Option<string>): (r: seq<Json>)
    ensures j.JObj? && HasKey(j.fields, key) ==> |r| >= 1 && Some(r[0]) == Get(j.fields, key)
    decreases j, 1
  {
    match j
    case JObj(fields) =>
      (match Get(fields, key) case Some(v) => [v] case None => [])
      + FindInFields(fields, 0, key, skip)
    case _ => []
  }

  /** The yields of the descended fields from position `i` on. */
  function FindInFields(fields: seq<(string, Json)>, i: nat, key: string, skip: Option<string>): seq<Json>
    requires i <= |fields|
    decreases JObj(fields), 0, |fields| - i
  {
    if i == |fields| then []
    else
      assert fields[i] in fields;
      (if Descended(fields, i, skip) then FindAll(fields[i].1, key, skip) else [])
      + FindInFields(fields, i + 1, key, skip)
  }

  /** `find_all_instances_key(obj, key, key_to_skip)`: the caller hands it a
      dictionary; on anything else Python's `in` or `.items()` raises. */
  function FindAllInstancesKey(obj: Json, key: string, skip: Option<string>): (r: Option<seq<Json>>)
    ensures r.Some? <==> obj.JObj?
  {
    if obj.JObj? then Some(FindAll(obj, key, skip)) else None
  }

  /** A chain of dictionary-valued, non-skipped fields leading from `j` down:
      the only places the finder looks. */
  ghost predicate IsObjectPath(j: Json, path: seq<nat>, skip: Option<string>)
    decreases |path|
  {
    j.JObj? &&
    (path != [] ==>
      path[0] < |j.fields| && Descended(j.fields, path[0], skip) &&
      IsObjectPath(j.fields[path[0]].1, path[1..], skip))
  }

  /** The node an object path leads to. */
  ghost function At(j: Json, path: seq<nat>, skip: Option<string>): (node: Json)
    requires IsObjectPath(j, path, skip)
    ensures node.JObj?
    decreases |path|
  {
    if path == [] then j else At(j.fields[path[0]].1, path[1..], skip)
  }

  lemma {:induction false} FindInFieldsContains(fields: seq<(string, Json)>, i: nat, k: nat,
                                                key: string, skip: Option<string>, v: Json)
    requires i <= k < |fields| && Descended(fields, k, skip)
    requires v in FindAll(fields[k].1, key, skip)
    ensures v in FindInFields(fields, i, key, skip)
    decreases k - i
  {
    var own := if Descended(fields, i, skip) then FindAll(fields[i].1, key, skip) else [];
    var rest := FindInFields(fields, i + 1, key, skip);
    assert FindInFields(fields, i, key, skip) == own + rest;
    if i < k {
      FindInFieldsContains(fields, i + 1, k, key, skip, v);
      assert v in rest;
    } else {
      assert v in own;
    }
  }

  /** Completeness: every value stored under `key` in a dictionary reachable
      through dictionary-valued, non-skipped fields is yielded. */
  lemma {:induction false} FindAllComplete(j: Json, path: seq<nat>, key: string, skip: Option<string>)
    requires IsObjectPath(j, path, skip)
    requires HasKey(At(j, path, skip).fields, key)
    ensures Get(At(j, path, skip).fields, key).value in FindAll(j, key, skip)
    decreases |path|
  {
    if path != [] {
      var k := path[0];
      FindAllComplete(j.fields[k].1, path[1..], key, skip);
      FindInFieldsContains(j.fields, 0, k, key, skip, Get(At(j, path, skip).fields, key).value);
    }
  }

  lemma {:induction false} FindInFieldsSound(fields: seq<(string, Json)>, i: nat,
                                             key: string, skip: Option<string>, v: Json)
    requires i <= |fields|
    requires v in FindInFields(fields, i, key, skip)
    ensures exists k :: i <= k < |fields| && Descended(fields, k, skip) && v in FindAll(fields[k].1, key, skip)
    decreases |fields| - i
  {
    if !(Descended(fields, i, skip) && v in FindAll(fields[i].1, key, skip)) {
      FindInFieldsSound(fields, i + 1, key, skip, v);
    }
  }

  /** Soundness: every yielded value is stored under `key` in a dictionary
      reachable through dictionary-valued, non-skipped fields; so nothing
      inside a list, and nothing below a skipped key, is ever found. */
  lemma {:induction false} FindAllSound(j: Json, key: string, skip: Option<string>, v: Json)
    requires v in FindAll(j, key, skip)
    ensures exists path :: IsObjectPath(j, path, skip) && Get(At(j, path, skip).fields, key) == Some(v)
    decreases j
  {
    assert j.JObj?;
    var fields := j.fields;
    var own := match Get(fields, key) case Some(w) => [w] case None => [];
    assert FindAll(j, key, skip) == own + FindInFields(fields, 0, key, skip);
    if Get(fields, key) == Some(v) {
      assert IsObjectPath(j, [], skip) && At(j, [], skip) == j;
    } else {
      FindInFieldsSound(fields, 0, key, skip, v);
      var k :| 0 <= k < |fields| && Descended(fields, k, skip) && v in FindAll(fields[k].1, key, skip);
      assert fields[k] in fields;
      FindAllSound(fields[k].1, key, skip, v);
      var p :| IsObjectPath(fields[k].1, p, skip) && Get(At(fields[k].1, p, skip).fields, key) == Some(v);
      PathExtend(j, k, p, skip);
    }
  }

  /** A descended field followed by a path from its value is a path. */
  lemma PathExtend(j: Json, k: nat, p: seq<nat>, skip: Option<string>)
    requires j.JObj? && k < |j.fields| && Descended(j.fields, k, skip)
    requires IsObjectPath(j.fields[k].1, p, skip)
    ensures IsObjectPath(j, [k] + p, skip) && At(j, [k] + p, skip) == At(j.fields[k].1, p, skip)
  {
    assert ([k] + p)[1..] == p;
  }

  /** The dictionaries the generator walks through, in the order it visits
      them: the node itself, then those reached through each descended field. */
  function Visited(j: Json, skip: Option<string>): (nodes: seq<Json>)
    ensures j.JObj? ==> |nodes| >= 1 && nodes[0] == j
    ensures !j.JObj? ==> nodes == []
    decreases j, 1
  {
    match j
    case JObj(fields) => [j] + VisitedInFields(fields, 0, skip)
    case _ => []
  }

  function VisitedInFields(fields: seq<(string, Json)>, i: nat, skip: Option<string>): seq<Json>
    requires i <= |fields|
    decreases JObj(fields), 0, |fields| - i
  {
    if i == |fields| then []
    else
      assert fields[i] in fields;
      (if Descended(fields, i, skip) then Visited(fields[i].1, skip) else [])
      + VisitedInFields(fields, i + 1, skip)
  }

  /** The value stored under `key` in each of `nodes` that holds it, in order. */
  function ValuesUnder(nodes: seq<Json>, key: string): (values: seq<Json>)
    ensures |values| <= |nodes|
  {
    if nodes == [] then []
    else
      (if nodes[0].JObj? && HasKey(nodes[0].fields, key) then [Get(nodes[0].fields, key).value] else [])
      + ValuesUnder(nodes[1..], key)
  }

  lemma {:induction false} ValuesUnderAppend(a: seq<Json>, b: seq<Json>, key: string)
    ensures ValuesUnder(a + b, key) == ValuesUnder(a, key) + ValuesUnder(b, key)
  {
    if a == [] {
      assert a + b == b;
    } else {
      var head := if a[0].JObj? && HasKey(a[0].fields, key) then [Get(a[0].fields, key).value] else [];
      assert (a + b)[0] == a[0] && (a + b)[1..] == a[1..] + b;
      assert ValuesUnder(a + b, key) == head + ValuesUnder(a[1..] + b, key);
      ValuesUnderAppend(a[1..], b, key);
      assert ValuesUnder(a, key) == head + ValuesUnder(a[1..], key);
    }
  }

  /** The yields are exactly one value per visited dictionary that holds
      `key`, in visiting order: no value is yielded twice or dropped. */
  lemma {:induction false} FindAllIsPreorder(j: Json, key: string, skip: Option<string>)
    ensures FindAll(j, key, skip) == ValuesUnder(Visited(j, skip), key)
    decreases j, 1
  {
    if j.JObj? {
      assert ValuesUnder([j], key) == (match Get(j.fields, key) case Some(v) => [v] case None => []);
      FindInFieldsIsPreorder(j.fields, 0, key, skip);
      ValuesUnderAppend([j], VisitedInFields(j.fields, 0, skip), key);
    }
  }

  lemma {:induction false} FindInFieldsIsPreorder(fields: seq<(string, Json)>, i: nat, key: string, skip: Option<string>)
    requires i <= |fields|
    ensures FindInFields(fields, i, key, skip) == ValuesUnder(VisitedInFields(fields, i, skip), key)
    decreases JObj(fields), 0, |fields| - i
  {
    if i < |fields| {
      assert fields[i] in fields;
      FindInFieldsIsPreorder(fields, i + 1, key, skip);
      FieldStep(fields, i, key, skip);
      if Descended(fields, i, skip) {
        FindAllIsPreorder(fields[i].1, key, skip);
        ValuesUnderAppend(Visited(fields[i].1, skip), VisitedInFields(fields, i + 1, skip), key);
      }
    }
  }

  /** One field of the scan, for both the yields and the visited nodes. */
  lemma FieldStep(fields: seq<(string, Json)>, i: nat, key: string, skip: Option<string>)
    requires i < |fields|
    ensures Descended(fields, i, skip) ==>
      FindInFields(fields, i, key, skip) == FindAll(fields[i].1, key, skip) + FindInFields(fields, i + 1, key, skip) &&
      VisitedInFields(fields, i, skip) == Visited(fields[i].1, skip) + VisitedInFields(fields, i + 1, skip)
    ensures !Descended(fields, i, skip) ==>
      FindInFields(fields, i, key, skip) == FindInFields(fields, i + 1, key, skip) &&
      VisitedInFields(fields, i, skip) == VisitedInFields(fields, i + 1, skip)
  {
  }

  /** `{"a": {"update_date": "X", "b": {"update_date": "Y"}}}` yields X then Y;
      skipping `b` yields X only. */
  lemma FindAllExample()
    ensures var doc := JObj([("a", JObj([("update_date", JStr("X")),
                                         ("b", JObj([("update_date", JStr("Y"))]))]))]);
            FindAll(doc, "update_date", None) == [JStr("X"), JStr("Y")] &&
            FindAll(doc, "update_date", Some("b")) == [JStr("X")]
  {
    var b := JObj([("update_date", JStr("Y"))]);
    var a := JObj([("update_date", JStr("X")), ("b", b)]);
    var doc := JObj([("a", a)]);
    assert FindAll(b, "update_date", None) == [JStr("Y")];
    assert FindInFields(a.fields, 1, "update_date", None) == [JStr("Y")];
    assert FindInFields(a.fields, 0, "update_date", None) == [JStr("Y")];
    assert FindAll(a, "update_date", None) == [JStr("X"), JStr("Y")];
    assert FindInFields(doc.fields, 0, "update_date", None) == [JStr("X"), JStr("Y")];
    assert FindInFields(a.fields, 1, "update_date", Some("b")) == [];
    assert FindAll(a, "update_date", Some("b")) == [JStr("X")];
    assert FindInFields(doc.fields, 0, "update_date", Some("b")) == [JStr("X")];
  }

  /** A value inside a list is not found, and a matched value that is itself
      a dictionary is yielded before what is found inside it. */
  lemma FindAllListAndNestedExample()
    ensures FindAll(JObj([("features", JArr([JObj([("end_date", JStr("X"))])]))]), "end_date", None) == []
    ensures var inner := JObj([("end_date", JStr("Y"))]);
            FindAll(JObj([("end_date", inner)]), "end_date", None) == [inner, JStr("Y")]
  {
    var inner := JObj([("end_date", JStr("Y"))]);
    assert FindAll(inner, "end_date", None) == [JStr("Y")];
    var outer := JObj([("end_date", inner)]);
    assert FindInFields(outer.fields, 0, "end_date", None) == [JStr("Y")];
  }

  // ---------------------------------------------------------------------
  // get_formatted_errors

  /** A `jsonschema.ValidationError`: its message, its `path` within the
      instance and its `context` (the sub-errors of a failed `anyOf`/`oneOf`;
      `None` and the empty list are both the empty sequence here). */
  datatype ValidationError = ValidationError(message: string, path: seq<PathItem>, context: seq<ValidationError>)

  /** `best_match(context)`, an external heuristic: `None` stands for a
      return value that is not a `ValidationError`. */
  type BestMatch = seq<ValidationError> -> Option<ValidationError>

  /** What the generator yields for one error, if anything. */
  function FormatError(e: ValidationError, feedname: string, best: BestMatch): Option<(string, string)> {
    if e.context == [] then Some((e.message, FormatAsIndex(feedname, e.path)))
    else match best(e.context)
      case Some(b) => Some((b.message, FormatAsIndex(FormatAsIndex(feedname, e.path), b.path)))
      case None => None
  }

  /** `list(get_formatted_errors(errors, feedname))`: one (message, field)
      pair per error, in order, dropping errors whose best match is not a
      validation error. */
  function GetFormattedErrors(errors: seq<ValidationError>, feedname: string, best: BestMatch): (r: seq<(string, string)>)
    ensures |r| <= |errors|
  {
    if errors == [] then []
    else Yielded(errors[0], feedname, best) + GetFormattedErrors(errors[1..], feedname, best)
  }

  /** The zero or one pair yielded for one error. */
  function Yielded(e: ValidationError, feedname: string, best: BestMatch): (r: seq<(string, string)>)
    ensures |r| <= 1
  {
    match FormatError(e, feedname, best) case Some(p) => [p] case None => []
  }

  /** Output order follows input order: the flattening distributes over concatenation. */
  lemma {:induction false} GetFormattedErrorsAppend(a: seq<ValidationError>, b: seq<ValidationError>,
                                                    feedname: string, best: BestMatch)
    ensures GetFormattedErrors(a + b, feedname, best)
         == GetFormattedErrors(a, feedname, best) + GetFormattedErrors(b, feedname, best)
  {
    if a != [] {
      assert (a + b)[0] == a[0] && (a + b)[1..] == a[1..] + b;
      GetFormattedErrorsAppend(a[1..], b, feedname, best);
      var h := Yielded(a[0], feedname, best);
      calc {
        GetFormattedErrors(a + b, feedname, best);
        h + GetFormattedErrors(a[1..] + b, feedname, best);
        h + (GetFormattedErrors(a[1..], feedname, best) + GetFormattedErrors(b, feedname, best));
        (h + GetFormattedErrors(a[1..], feedname, best)) + GetFormattedErrors(b, feedname, best);
      }
    } else {
      assert a + b == b;
    }
  }

  /** Errors without sub-errors are kept one for one, each as its own message
      located at `feedname[...path]`. */
  lemma {:induction false} GetFormattedErrorsPlain(errors: seq<ValidationError>, feedname: string, best: BestMatch)
    requires forall i :: 0 <= i < |errors| ==> errors[i].context == []
    ensures var r := GetFormattedErrors(errors, feedname, best);
            |r| == |errors| &&
            forall i :: 0 <= i < |errors| ==> r[i] == (errors[i].message, feedname + Brackets(errors[i].path))
  {
    if errors != [] {
      GetFormattedErrorsPlain(errors[1..], feedname, best);
      var r := GetFormattedErrors(errors, feedname, best);
      assert forall i :: 1 <= i < |errors| ==> r[i] == GetFormattedErrors(errors[1..], feedname, best)[i - 1];
    }
  }

  /** An error with sub-errors is reported as its best sub-error, located at
      the parent's path followed by the sub-error's path, or is dropped. */
  lemma {:induction false} GetFormattedErrorsNested(e: ValidationError, feedname: string, best: BestMatch)
    requires e.context != []
    ensures best(e.context).None? ==> GetFormattedErrors([e], feedname, best) == []
    ensures best(e.context).Some? ==>
      var b := best(e.context).value;
      GetFormattedErrors([e], feedname, best) == [(b.message, feedname + Brackets(e.path + b.path))]
  {
    if best(e.context).Some? {
      FormatAsIndexNested(feedname, e.path, best(e.context).value.path);
    }
  }

  // ---------------------------------------------------------------------
  // VERSION_TO_SCHEMA and get_version_schema_errors

  /** The versions the table has an entry for. */
  const KnownVersions: set<string> := {"4.2", "4.1", "4.0", "3.1", "3.0", "2.0"}

  /** The prefix every schema URI of the table shares. */
  const SchemaBase := "https://raw.githubusercontent.com/usdot-jpo-ode/wzdx/main/schemas/"

  /** The schema document's file name: renamed from `WZDxFeed.json` to
      `WorkZoneFeed.json` as of version 4.1. */
  function SchemaFile(version: string): string {
    if version == "4.2" || version == "4.1" then "WorkZoneFeed.json" else "WZDxFeed.json"
  }

  /** `VERSION_TO_SCHEMA[version]`, e.g. `SchemaBase + "4.2/WorkZoneFeed.json"`
      and `SchemaBase + "3.1/WZDxFeed.json"`; `None` is the `KeyError` for any
      other version string, the CWZ one included. */
  function VersionToSchema(version: string): (uri: Option<string>)
    ensures uri.Some? <==> version in KnownVersions
    ensures uri.Some? ==> |uri.value| > |SchemaBase| + 3 && uri.value[|SchemaBase|..|SchemaBase| + 3] == version
  {
    if version in KnownVersions then
      var uri := SchemaBase + version + "/" + SchemaFile(version);
      assert uri[|SchemaBase|..|SchemaBase| + 3] == version;
      Some(uri)
    else None
  }

  /** Each known version has a schema of its own. */
  lemma VersionToSchemaInjective(v1: string, v2: string)
    requires v1 in KnownVersions && v2 in KnownVersions && v1 != v2
    ensures VersionToSchema(v1) != VersionToSchema(v2)
  {
  }

  /** `Draft7Validator({"$ref": uri}).iter_errors(data)`, external. */
  type Validate = (Json, string) -> seq<ValidationError>

  /** `str(error)`, external. */
  type ErrorText = ValidationError -> string

  predicate SortedBy<T>(s: seq<T>, key: T -> string) {
    forall i, j :: 0 <= i < j < |s| ==> LessEq(key(s[i]), key(s[j]))
  }

  /** Inserts `x` before the first element whose key is not smaller, so that
      among equal keys the earlier input comes first. */
  function Insert<T>(x: T, t: seq<T>, key: T -> string): seq<T> {
    if t == [] || LessEq(key(x), key(t[0])) then [x] + t
    else [t[0]] + Insert(x, t[1..], key)
  }

  /** `sorted(items, key=key)`, a stable sort. */
  function SortBy<T>(s: seq<T>, key: T -> string): seq<T> {
    if s == [] then [] else Insert(s[0], SortBy(s[1..], key), key)
  }

  lemma {:induction false} InsertPermutes<T>(x: T, t: seq<T>, key: T -> string)
    ensures multiset(Insert(x, t, key)) == multiset(t) + multiset{x}
  {
    if t != [] && !LessEq(key(x), key(t[0])) {
      InsertPermutes(x, t[1..], key);
      assert t == [t[0]] + t[1..];
    }
  }

  lemma {:induction false} InsertSorted<T>(x: T, t: seq<T>, key: T -> string)
    requires SortedBy(t, key)
    ensures multiset(Insert(x, t, key)) == multiset(t) + multiset{x}
    ensures SortedBy(Insert(x, t, key), key)
  {
    InsertPermutes(x, t, key);
    if t == [] || LessEq(key(x), key(t[0])) {
      var r := [x] + t;
      forall i, j | 0 <= i < j < |r| ensures LessEq(key(r[i]), key(r[j])) {
        if i == 0 && j > 1 { LessEqTransitive(key(x), key(t[0]), key(t[j - 1])); }
      }
    } else {
      var tail := t[1..];
      InsertSorted(x, tail, key);
      var rest := Insert(x, tail, key);
      var r := [t[0]] + rest;
      assert Insert(x, t, key) == r;
      LessEqTotal(key(x), key(t[0]));
      forall j | 0 <= j < |rest| ensures LessEq(key(t[0]), key(rest[j])) {
        assert rest[j] in multiset(tail) + multiset{x};
        if rest[j] != x {
          assert rest[j] in tail;
          var m :| 0 <= m < |tail| && tail[m] == rest[j];
          assert t[m + 1] == rest[j];
        }
      }
      forall i, j | 0 <= i < j < |r| ensures LessEq(key(r[i]), key(r[j])) {
        if i > 0 { assert r[i] == rest[i - 1] && r[j] == rest[j - 1]; }
      }
    }
  }

  /** The sort returns a permutation of its input, in non-decreasing key order. */
  lemma {:induction false} SortBySorted<T>(s: seq<T>, key: T -> string)
    ensures multiset(SortBy(s, key)) == multiset(s)
    ensures SortedBy(SortBy(s, key), key)
  {
    if s != [] {
      SortBySorted(s[1..], key);
      InsertSorted(s[0], SortBy(s[1..], key), key);
      assert s == [s[0]] + s[1..];
    }
  }

  /** Sorting what is already in order changes nothing. */
  lemma {:induction false} SortByOfSorted<T>(s: seq<T>, key: T -> string)
    requires SortedBy(s, key)
    ensures SortBy(s, key) == s
  {
    if s != [] {
      assert SortedBy(s[1..], key) by {
        forall i, j | 0 <= i < j < |s[1..]| ensures LessEq(key(s[1..][i]), key(s[1..][j])) {
          assert s[1..][i] == s[i + 1] && s[1..][j] == s[j + 1];
        }
      }
      SortByOfSorted(s[1..], key);
      assert s == [s[0]] + s[1..];
    }
  }

  /** Ordering the errors twice gives the same order as ordering them once. */
  lemma SortByIdempotent<T>(s: seq<T>, key: T -> string)
    ensures SortBy(SortBy(s, key), key) == SortBy(s, key)
  {
    SortBySorted(s, key);
    SortByOfSorted(SortBy(s, key), key);
  }

  /** `get_schema_errors(data, {"$ref": uri})`: every validator error, ordered by its text. */
  function GetSchemaErrors(data: Json, uri: string, validate: Validate, text: ErrorText): (r: seq<ValidationError>)
    ensures multiset(r) == multiset(validate(data, uri))
    ensures SortedBy(r, text)
  {
    SortBySorted(validate(data, uri), text);
    SortBy(validate(data, uri), text)
  }

  /** `get_version_schema_errors(data, version)`: the ordered errors against
      the version's schema, or the `KeyError` of an unknown version. */
  function GetVersionSchemaErrors(data: Json, version: string, validate: Validate, text: ErrorText)
    : (r: Result<seq<ValidationError>, string>)
    ensures r.Failure? <==> version !in KnownVersions
    ensures r.Failure? ==> r.error == version
    ensures r.Success? ==>
      multiset(r.value) == multiset(validate(data, VersionToSchema(version).value)) && SortedBy(r.value, text)
  {
    match VersionToSchema(version)
    case None => Failure(version)
    case Some(uri) => Success(GetSchemaErrors(data, uri, validate, text))
  }
}
