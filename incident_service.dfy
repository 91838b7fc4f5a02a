/** `format_incidents`: the ServiceNow incident list turned into display
    rows, newest first. */
module IncidentService {
  import opened Common
  import opened Text
  import opened PyValues
  import opened Sorting

  /** One display row: the four shown fields and the record it came from. */
  datatype Formatted = Formatted(number: Value, description: Value, status: Value, createdOn: Value, rawData: Value)

  /** The row for one incident record. */
  function FormatOne(incident: Value): (f: Formatted)
    requires incident.Dict?
    ensures f.rawData == incident
  {
    var e := incident.entries;
    Formatted(Get(e, "number", Str("N/A")), Get(e, "description", Str("No description")),
              Get(e, "state", Str("N/A")), Get(e, "sys_created_on", Str("N/A")), incident)
  }

  /** Each shown field is the record's own value when the key is present,
      and its default otherwise. */
  lemma FormatOneDefaults(incident: Value)
    requires incident.Dict?
    ensures var e := incident.entries; var f := FormatOne(incident);
      && f.number == (if "number" in Keys(e) then Lookup(e, "number").value else Str("N/A"))
      && f.description == (if "description" in Keys(e) then Lookup(e, "description").value else Str("No description"))
      && f.status == (if "state" in Keys(e) then Lookup(e, "state").value else Str("N/A"))
      && f.createdOn == (if "sys_created_on" in Keys(e) then Lookup(e, "sys_created_on").value else Str("N/A"))
  {
  }

  /** Index of the first record that is not a dictionary, if any. */
  function FirstNonDict(items: seq<Value>, from: nat): (r: Option<nat>)
    requires from <= |items|
    ensures r.Some? ==> from <= r.value < |items| && !items[r.value].Dict?
    ensures r.Some? ==> forall i :: from <= i < r.value ==> items[i].Dict?
    ensures r.None? ==> forall i :: from <= i < |items| ==> items[i].Dict?
    decreases |items| - from
  {
    if from == |items| then None
    else if !items[from].Dict? then Some(from)
    else FirstNonDict(items, from + 1)
  }

  /** What `.get` on a record that is not a dictionary raises. */
  function NoGet(v: Value): Exc {
    Exc(AttributeError, "'" + TypeName(v) + "' object has no attribute 'get'")
  }

  /** The rows in input order, one per record; the first record that is
      not a dictionary raises on its `.get`. */
  function Rows(items: seq<Value>): (r: Result<seq<Formatted>>)
    ensures r.Ok? <==> forall i :: 0 <= i < |items| ==> items[i].Dict?
  {
    RowsWith(items, FormatOne)
  }

  /** The rows that `format` makes of the records, where `format` is any
      formatting defined on every dictionary. */
  function RowsWith(items: seq<Value>, format: Value --> Formatted): (r: Result<seq<Formatted>>)
    requires forall v: Value :: v.Dict? ==> format.requires(v)
    ensures r.Ok? <==> forall i :: 0 <= i < |items| ==> items[i].Dict?
  {
    match FirstNonDict(items, 0)
    case Some(i) => Err(NoGet(items[i]))
    case None => Ok(seq(|items|, i requires 0 <= i < |items| => format(items[i])))
  }

  /** The first record that is not a dictionary is the one every earlier
      record precedes. */
  lemma FirstNonDictIs(items: seq<Value>, i: nat)
    requires i < |items| && !items[i].Dict? && forall j :: 0 <= j < i ==> items[j].Dict?
    ensures FirstNonDict(items, 0) == Some(i)
  {
  }

  /** The sort key: the `Created On` text. */
  function CreatedOnText(f: Formatted): string {
    if f.createdOn.Str? then f.createdOn.s else ""
  }

  /** Python's `<=` on strings: code-point lexicographic order. */
  function StrLe(): (le: (string, string) -> bool)
    ensures TotalPreorder(le)
  {
    LexLePreorder();
    (a: string, b: string) => LexLe(a, b)
  }

  lemma LexLePreorder()
    ensures forall a: string, b: string :: LexLe(a, b) || LexLe(b, a)
    ensures forall a: string, b: string, c: string :: LexLe(a, b) && LexLe(b, c) ==> LexLe(a, c)
  {
    forall a: string, b: string ensures LexLe(a, b) || LexLe(b, a) {
      LexLeTotal(a, b);
    }
    forall a: string, b: string, c: string | LexLe(a, b) && LexLe(b, c) ensures LexLe(a, c) {
      LexLeTrans(a, b, c);
    }
  }

  /** Every `Created On` is a string. */
  predicate StrKeys(rows: seq<Formatted>) {
    forall i :: 0 <= i < |rows| ==> rows[i].createdOn.Str?
  }

  /** Every `Created On` is an integer or a boolean: Python orders these
      among themselves, `False` and `True` as 0 and 1. */
  predicate NumKeys(rows: seq<Formatted>) {
    forall i :: 0 <= i < |rows| ==> rows[i].createdOn.Int? || rows[i].createdOn.Bool?
  }

  /** The sort key of integer and boolean dates. */
  function CreatedOnNumber(f: Formatted): int {
    match f.createdOn
    case Int(i) => i
    case Bool(b) => if b then 1 else 0
    case _ => 0
  }

  /** Python's `<=` on integers. */
  function IntLe(): (le: (int, int) -> bool)
    ensures TotalPreorder(le)
  {
    (a: int, b: int) => a <= b
  }

  /** Python compares `Created On` values only when there are two rows or
      more: strings with strings and numbers with numbers; any other pair
      (`None` with `None` included) raises. */
  predicate KeysComparable(rows: seq<Formatted>) {
    |rows| < 2 || StrKeys(rows) || NumKeys(rows)
  }

  /** The sort `format_incidents` applies to comparable rows. */
  function SortRows(rows: seq<Formatted>): seq<Formatted>
    requires KeysComparable(rows)
  {
    if |rows| < 2 || StrKeys(rows) then SortDesc(rows, CreatedOnText, StrLe())
    else SortDesc(rows, CreatedOnNumber, IntLe())
  }

  /** The records the loop visits when the input has a `result` entry that
      can be iterated; empty otherwise. */
  function ResultItems(data: Value): seq<Value> {
    if data.Dict? && Iterate(Get(data.entries, "result", List([]))).Ok? then
      Iterate(Get(data.entries, "result", List([]))).value
    else []
  }

  /** `format_incidents(incidents_data)`. */
  function FormatIncidents(data: Value): (r: Result<seq<Formatted>>)
    ensures !Truthy(data) ==> r == Ok([])
    ensures data.Dict? && "result" !in Keys(data.entries) ==> r == Ok([])
    ensures r.Ok? && r.value != [] ==> data.Dict? && "result" in Keys(data.entries)
  {
    if !Truthy(data) then Ok([])
    else match Contains(data, "result")
      case Err(e) => Err(e)
      case Ok(present) =>
        if !present then Ok([])
        else if !data.Dict? then Err(NoGet(data))
        else match Iterate(Get(data.entries, "result", List([])))
          case Err(e) => Err(e)
          case Ok(items) =>
            match Rows(items)
            case Err(e) => Err(e)
            case Ok(rows) =>
              if KeysComparable(rows) then Ok(SortRows(rows))
              else Err(Unorderable(rows))
  }

  /** The `TypeError` of comparing the first row's `Created On` with the
      first one of another kind. */
  function Unorderable(rows: seq<Formatted>): Exc
    requires rows != []
  {
    var first := rows[0].createdOn;
    var other := OtherKind(rows, first);
    Exc(TypeError, "'<' not supported between instances of '" + TypeName(other) + "' and '" + TypeName(first) + "'")
  }

  /** The first `Created On` that cannot be compared with `v`; `v` itself
      if there is none. */
  function OtherKind(rows: seq<Formatted>, v: Value): Value {
    if rows == [] then v
    else if (v.Str? && rows[0].createdOn.Str?) || ((v.Int? || v.Bool?) && (rows[0].createdOn.Int? || rows[0].createdOn.Bool?))
    then OtherKind(rows[1..], v)
    else rows[0].createdOn
  }

  /** A successful result holds one row per incident record: the same rows
      as the input order, rearranged into descending `Created On` order,
      with rows of equal keys in input order.  Dates are strings compared
      as strings, or integers and booleans compared as numbers. */
  lemma FormatIncidentsSorted(data: Value)
    requires FormatIncidents(data).Ok? && data.Dict? && "result" in Keys(data.entries)
    ensures var items := ResultItems(data);
      var r := FormatIncidents(data).value;
      && Rows(items).Ok?
      && var rows := Rows(items).value;
      && |r| == |items|
      && multiset(r) == multiset(rows)
      && (StrKeys(rows) || |rows| < 2 || NumKeys(rows))
      && (StrKeys(rows) ==>
            && SortedDesc(r, CreatedOnText, StrLe())
            && forall k :: KeyClass(r, k, CreatedOnText, StrLe()) == KeyClass(rows, k, CreatedOnText, StrLe()))
      && (NumKeys(rows) ==>
            && SortedDesc(r, CreatedOnNumber, IntLe())
            && forall k :: KeyClass(r, k, CreatedOnNumber, IntLe()) == KeyClass(rows, k, CreatedOnNumber, IntLe()))
  {
    var items := ResultItems(data);
    var rows := Rows(items).value;
    var r := FormatIncidents(data).value;
    if |rows| < 2 || StrKeys(rows) {
      SortDescPermutation(rows, CreatedOnText, StrLe());
      SortDescSorted(rows, CreatedOnText, StrLe());
      forall k ensures KeyClass(r, k, CreatedOnText, StrLe()) == KeyClass(rows, k, CreatedOnText, StrLe()) {
        SortDescStable(rows, k, CreatedOnText, StrLe());
      }
    } else {
      SortDescPermutation(rows, CreatedOnNumber, IntLe());
      SortDescSorted(rows, CreatedOnNumber, IntLe());
      forall k ensures KeyClass(r, k, CreatedOnNumber, IntLe()) == KeyClass(rows, k, CreatedOnNumber, IntLe()) {
        SortDescStable(rows, k, CreatedOnNumber, IntLe());
      }
    }
    assert |multiset(r)| == |rows|;
    if |rows| < 2 {
      assert |rows| == 1 ==> rows[..0] == [];
      assert r == rows;
    }
  }

  /** Two or more records whose dates are neither all strings nor all
      numbers make the sort raise a `TypeError`. */
  lemma FormatIncidentsMixedDates(data: Value)
    requires data.Dict? && "result" in Keys(data.entries) && Rows(ResultItems(data)).Ok?
    requires var rows := Rows(ResultItems(data)).value; |rows| >= 2 && !StrKeys(rows) && !NumKeys(rows)
    ensures FormatIncidents(data).Err? && FormatIncidents(data).error.kind == TypeError
  {
    assert data.entries != [] by {
      assert "result" in Keys(data.entries);
    }
  }

  /** A `result` list of dictionaries never raises when their dates are
      all strings (a missing date reads as `'N/A'`) or all integers or
      booleans, and gives one row per record. */
  lemma FormatIncidentsOk(data: Value)
    requires data.Dict? && "result" in Keys(data.entries)
    requires Lookup(data.entries, "result").Some? && Lookup(data.entries, "result").value.List?
    requires var items := Lookup(data.entries, "result").value.items;
      || (forall v :: v in items ==>
            v.Dict? && (var e := v.entries; "sys_created_on" !in Keys(e) || Lookup(e, "sys_created_on").value.Str?))
      || (forall v :: v in items ==>
            v.Dict? && (var e := v.entries;
              "sys_created_on" in Keys(e) && (Lookup(e, "sys_created_on").value.Int? || Lookup(e, "sys_created_on").value.Bool?)))
    ensures FormatIncidents(data).Ok?
    ensures |FormatIncidents(data).value| == |Lookup(data.entries, "result").value.items|
  {
    var items := Lookup(data.entries, "result").value.items;
    assert ResultItems(data) == items;
    forall i | 0 <= i < |items| ensures items[i].Dict? {
      assert items[i] in items;
    }
    var rows := Rows(items).value;
    forall i | 0 <= i < |rows|
      ensures var e := items[i].entries;
        rows[i].createdOn == (if "sys_created_on" in Keys(e) then Lookup(e, "sys_created_on").value else Str("N/A"))
    {
      assert items[i] in items;
      FormatOneDefaults(items[i]);
    }
    assert StrKeys(rows) || NumKeys(rows) by {
      if !StrKeys(rows) {
        forall i | 0 <= i < |rows| ensures rows[i].createdOn.Int? || rows[i].createdOn.Bool? {
          assert items[i] in items;
        }
      }
    }
    assert data.entries != [] by {
      assert "result" in Keys(data.entries);
    }
    FormatIncidentsSorted(data);
  }

  /** The loop of `format_incidents`, appending one row per record, with
      `format` the per-record formatting. */
  method FormatRows(items: seq<Value>, format: Value --> Formatted) returns (r: Result<seq<Formatted>>)
    requires forall v: Value :: v.Dict? ==> format.requires(v)
    ensures r == RowsWith(items, format)
  {
    var formatted: seq<Formatted> := [];
    var i := 0;
    while i < |items|
      invariant 0 <= i <= |items|
      invariant forall j :: 0 <= j < i ==> items[j].Dict?
      invariant |formatted| == i && forall j :: 0 <= j < i ==> formatted[j] == format(items[j])
    {
      var incident := items[i];
      if !incident.Dict? {
        FirstNonDictIs(items, i);
        return Err(NoGet(incident));
      }
      formatted := formatted + [format(incident)];
      i := i + 1;
    }
    assert FirstNonDict(items, 0).None?;
    assert formatted == seq(|items|, i requires 0 <= i < |items| => format(items[i]));
    r := Ok(formatted);
  }

  /** The loop and the in-place sort of `format_incidents`. */
  method FormatIncidentsLoop(data: Value) returns (r: Result<seq<Formatted>>)
    ensures r == FormatIncidents(data)
  {
    if !Truthy(data) {
      return Ok([]);
    }
    var present := Contains(data, "result");
    if present.Err? {
      return Err(present.error);
    }
    if !present.value {
      return Ok([]);
    }
    if !data.Dict? {
      return Err(NoGet(data));
    }
    var listed := Iterate(Get(data.entries, "result", List([])));
    if listed.Err? {
      return Err(listed.error);
    }
    var rows := FormatRows(listed.value, FormatOne);
    if rows.Err? {
      return Err(rows.error);
    }
    var formatted := rows.value;
    if !KeysComparable(formatted) {
      return Err(Unorderable(formatted));
    }
    if |formatted| < 2 || StrKeys(formatted) {
      formatted := SortDesc(formatted, CreatedOnText, StrLe());
    } else {
      formatted := SortDesc(formatted, CreatedOnNumber, IntLe());
    }
    r := Ok(formatted);
  }
}
