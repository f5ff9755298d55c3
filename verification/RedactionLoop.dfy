/**
  The redactor as it runs: loops over maps in whatever order the runtime visits them,
  updating the output in place.  The header loop keeps its list of redacted names in the
  same map as the headers, so a header with that very name can replace the list; using it
  as a list afterwards crashes.  Nothing stands for a crash.
 */
module RedactionLoop {
  import opened Prelude
  import opened Text
  import opened Redaction
  import opened RedactionKeys
  import opened RedactionTheorems

  datatype Place = Key(key: string) | Index(index: nat)

  /** The order in which the runtime visits a map, for each object of a value, wherever it is. */
  type Order = (seq<Place>, map<string, Json>) -> seq<string>

  function Elements(order: seq<string>): set<string> { set key | key in order }

  ghost predicate Distinct(order: seq<string>) {
    forall i, j | 0 <= i < j < |order| :: order[i] != order[j]
  }

  /** The order visits every key once. */
  ghost predicate Visits(fields: map<string, Json>, order: seq<string>) {
    Distinct(order) && Elements(order) == fields.Keys
  }

  ghost predicate Valid(ord: Order) { forall path, fields :: Visits(fields, ord(path, fields)) }

  predicate Within(order: seq<string>, fields: map<string, Json>) { forall key | key in order :: key in fields }

  lemma VisitsWithin(fields: map<string, Json>, order: seq<string>)
    requires Visits(fields, order)
    ensures Within(order, fields)
  {
    forall key | key in order ensures key in fields { assert key in Elements(order); }
  }

  // ---------------------------------------------------------------------------------
  // The redactor in a given order
  // ---------------------------------------------------------------------------------

  /** The loop has `value` for one more header; it fails when the slot of the list no longer holds a list. */
  function HeaderStep(lib: Library, out: map<string, Json>, key: string, value: Json): Option<map<string, Json>> {
    var out1 := out[key := value];
    if !Sensitive(lib, key) then Some(out1)
    else if REDACTED_FIELDS !in out1 || !out1[REDACTED_FIELDS].Names? then None
    else Some(out1[REDACTED_FIELDS := Names(out1[REDACTED_FIELDS].names + {key})])
  }

  function RunField(lib: Library, ord: Order, path: seq<Place>, key: string, v: Json): Option<Json>
    requires Valid(ord)
    decreases v, 3, 0
  {
    match RoleOf(lib, key)
    case PathLike => if PrivatePath(lib.Text(v)) then Some(FieldValue(lib, key, v)) else RunValue(lib, ord, path, v)
    case HeadersLike => RunHeaders(lib, ord, path, v)
    case Ordinary => RunValue(lib, ord, path, v)
    case _ => Some(FieldValue(lib, key, v))
  }

  function RunFields(lib: Library, ord: Order, path: seq<Place>, fields: map<string, Json>, order: seq<string>)
    : Option<map<string, Json>>
    requires Valid(ord) && Within(order, fields)
    decreases Obj(fields), 0, |order|
  {
    if order == [] then Some(map[])
    else
      var before, key := order[..|order| - 1], order[|order| - 1];
      match RunFields(lib, ord, path, fields, before)
      case None => None
      case Some(out) =>
        if Dropped(lib, key) then Some(out)
        else
          match RunField(lib, ord, path + [Key(key)], key, fields[key])
          case None => None
          case Some(value) => Some(out[key := value])
  }

  function RunItems(lib: Library, ord: Order, path: seq<Place>, items: seq<Json>, n: nat): Option<seq<Json>>
    requires Valid(ord) && n <= |items|
    decreases Arr(items), 0, n
  {
    if n == 0 then Some([])
    else
      match RunItems(lib, ord, path, items, n - 1)
      case None => None
      case Some(out) =>
        match RunValue(lib, ord, path + [Index(n - 1)], items[n - 1])
        case None => None
        case Some(value) => Some(out + [value])
  }

  function RunValue(lib: Library, ord: Order, path: seq<Place>, v: Json): Option<Json>
    requires Valid(ord)
    decreases v, 1, 0
  {
    match v
    case Obj(fields) =>
      VisitsWithin(fields, ord(path, fields));
      (match RunFields(lib, ord, path, fields, ord(path, fields))
       case None => None
       case Some(out) => Some(Obj(out)))
    case Arr(items) =>
      (match RunItems(lib, ord, path, items, |items|)
       case None => None
       case Some(out) => Some(Arr(out)))
    case _ => Some(Sanitize(lib, v))
  }

  function RunHeader(lib: Library, ord: Order, path: seq<Place>, key: string, v: Json): Option<Json>
    requires Valid(ord)
    decreases v, 3, 0
  {
    if HeaderRoleOf(lib, key).AllowedHeader? then RunValue(lib, ord, path, v) else Some(HeaderValue(lib, key, v))
  }

  function RunHeaderLoop(lib: Library, ord: Order, path: seq<Place>, headers: map<string, Json>, order: seq<string>)
    : Option<map<string, Json>>
    requires Valid(ord) && Within(order, headers)
    decreases Obj(headers), 0, |order|
  {
    if order == [] then Some(HeaderBase(lib, {}))
    else
      var before, key := order[..|order| - 1], order[|order| - 1];
      match RunHeaderLoop(lib, ord, path, headers, before)
      case None => None
      case Some(out) =>
        match RunHeader(lib, ord, path + [Key(key)], key, headers[key])
        case None => None
        case Some(value) => HeaderStep(lib, out, key, value)
  }

  function RunHeaders(lib: Library, ord: Order, path: seq<Place>, v: Json): Option<Json>
    requires Valid(ord)
    decreases v, 2, 0
  {
    if !v.Obj? then Some(SanitizeHeaders(lib, v))
    else if Marked(v.fields) then RunValue(lib, ord, path, v)
    else
      VisitsWithin(v.fields, ord(path, v.fields));
      match RunHeaderLoop(lib, ord, path, v.fields, ord(path, v.fields))
      case None => None
      case Some(out) => Some(Obj(out))
  }

  // ---------------------------------------------------------------------------------
  // What can crash
  // ---------------------------------------------------------------------------------

  /** One header is named like the list, and one is sensitive. */
  ghost predicate Clashes(lib: Library, headers: map<string, Json>) {
    REDACTED_FIELDS in headers && exists key | key in headers :: Sensitive(lib, key)
  }

  /** Some headers object that the redactor walks into clashes. */
  ghost predicate MayCrash(lib: Library, v: Json)
    decreases v, 0
  {
    match v
    case Obj(fields) => exists key | key in fields :: !Dropped(lib, key) && FieldMayCrash(lib, key, fields[key])
    case Arr(items) => exists i | 0 <= i < |items| :: MayCrash(lib, items[i])
    case _ => false
  }

  ghost predicate FieldMayCrash(lib: Library, key: string, v: Json)
    decreases v, 2
  {
    match RoleOf(lib, key)
    case PathLike => !PrivatePath(lib.Text(v)) && MayCrash(lib, v)
    case HeadersLike => HeadersMayCrash(lib, v)
    case Ordinary => MayCrash(lib, v)
    case _ => false
  }

  ghost predicate HeaderMayCrash(lib: Library, key: string, v: Json)
    decreases v, 2
  {
    HeaderRoleOf(lib, key).AllowedHeader? && MayCrash(lib, v)
  }

  ghost predicate HeadersMayCrash(lib: Library, v: Json)
    decreases v, 1
  {
    v.Obj? &&
    if Marked(v.fields) then MayCrash(lib, v)
    else Clashes(lib, v.fields) || exists key | key in v.fields :: HeaderMayCrash(lib, key, v.fields[key])
  }

  // ---------------------------------------------------------------------------------
  // What the loops build
  // ---------------------------------------------------------------------------------

  lemma ElementsSnoc(order: seq<string>)
    requires order != []
    ensures Elements(order) == Elements(order[..|order| - 1]) + {order[|order| - 1]}
  {
    assert order == order[..|order| - 1] + [order[|order| - 1]];
  }

  lemma DistinctSnoc(order: seq<string>)
    requires order != [] && Distinct(order)
    ensures Distinct(order[..|order| - 1]) && order[|order| - 1] !in Elements(order[..|order| - 1])
  {
  }

  /** What the object loop has built once it has visited `keys`. */
  function Kept(lib: Library, fields: map<string, Json>, keys: set<string>): map<string, Json> {
    map key | key in keys && key in fields && !Dropped(lib, key) :: FieldValue(lib, key, fields[key])
  }

  lemma NoneKept(lib: Library, fields: map<string, Json>)
    ensures Kept(lib, fields, {}) == map[]
  {
  }

  lemma KeptGrows(lib: Library, fields: map<string, Json>, keys: set<string>, key: string)
    requires key in fields
    ensures Kept(lib, fields, keys + {key}) ==
      if Dropped(lib, key) then Kept(lib, fields, keys)
      else Kept(lib, fields, keys)[key := FieldValue(lib, key, fields[key])]
  {
    hide Dropped, FieldValue;
  }

  lemma AllKept(lib: Library, fields: map<string, Json>)
    ensures Obj(Kept(lib, fields, fields.Keys)) == Sanitize(lib, Obj(fields))
  {
    hide Dropped, FieldValue;
    assert Kept(lib, fields, fields.Keys) == Sanitize(lib, Obj(fields)).fields;
  }

  /** What the header loop has built once it has visited `keys`, if it got that far. */
  function Built(lib: Library, headers: map<string, Json>, keys: set<string>): map<string, Json> {
    HeaderBase(lib, keys) + map key | key in keys && key in headers :: HeaderValue(lib, key, headers[key])
  }

  lemma NothingBuilt(lib: Library, headers: map<string, Json>)
    ensures Built(lib, headers, {}) == HeaderBase(lib, {})
  {
  }

  lemma AllBuilt(lib: Library, headers: map<string, Json>)
    requires !Marked(headers)
    ensures Obj(Built(lib, headers, headers.Keys)) == SanitizeHeaders(lib, Obj(headers))
  {
    hide HeaderBase, HeaderValue, Marked;
    assert Built(lib, headers, headers.Keys) == SanitizeHeaders(lib, Obj(headers)).fields;
  }

  lemma ListHeaderIsPlain(lib: Library, v: Json)
    requires FoldOk(lib)
    ensures !Sensitive(lib, REDACTED_FIELDS) && HeaderValue(lib, REDACTED_FIELDS, v).Obj?
  {
    hide Sensitive, HeaderRoleOf, FoldOk;
    SensitiveFieldsRedactedKey(lib);
    ListHeaderRole(lib);
  }

  lemma BaseHasList(lib: Library, keys: set<string>)
    ensures REDACTED_FIELDS in HeaderBase(lib, keys) && HeaderBase(lib, keys)[REDACTED_FIELDS].Names?
  {
  }

  lemma BaseGrows(lib: Library, keys: set<string>, key: string)
    ensures REDACTED_FIELDS in HeaderBase(lib, keys) && HeaderBase(lib, keys)[REDACTED_FIELDS].Names?
    ensures HeaderBase(lib, keys + {key}) ==
      if Sensitive(lib, key) then
        HeaderBase(lib, keys)[REDACTED_FIELDS := Names(HeaderBase(lib, keys)[REDACTED_FIELDS].names + {key})]
      else HeaderBase(lib, keys)
  {
    hide Sensitive;
    BaseHasList(lib, keys);
    var before, after := HeaderBase(lib, keys)[REDACTED_FIELDS].names, HeaderBase(lib, keys + {key})[REDACTED_FIELDS].names;
    assert after == if Sensitive(lib, key) then before + {key} else before;
  }

  lemma PlainStep(lib: Library, base: map<string, Json>, over: map<string, Json>, key: string, value: Json)
    requires !Sensitive(lib, key)
    ensures HeaderStep(lib, base + over, key, value) == Some(base + over[key := value])
  {
    hide Sensitive;
    assert (base + over)[key := value] == base + over[key := value];
  }

  lemma CrashingStep(lib: Library, base: map<string, Json>, over: map<string, Json>, key: string, value: Json)
    requires Sensitive(lib, key) && key != REDACTED_FIELDS
    requires REDACTED_FIELDS in over && over[REDACTED_FIELDS].Obj?
    ensures HeaderStep(lib, base + over, key, value) == None
  {
    hide Sensitive;
  }

  lemma ListingStep(lib: Library, base: map<string, Json>, over: map<string, Json>, key: string, value: Json)
    requires Sensitive(lib, key) && key != REDACTED_FIELDS
    requires REDACTED_FIELDS !in over && REDACTED_FIELDS in base && base[REDACTED_FIELDS].Names?
    ensures HeaderStep(lib, base + over, key, value) ==
            Some(base[REDACTED_FIELDS := Names(base[REDACTED_FIELDS].names + {key})] + over[key := value])
  {
    hide Sensitive;
    var list := Names(base[REDACTED_FIELDS].names + {key});
    assert (base + over)[key := value][REDACTED_FIELDS := list] == base[REDACTED_FIELDS := list] + over[key := value];
  }

  function Values(lib: Library, headers: map<string, Json>, keys: set<string>): map<string, Json> {
    map key | key in keys && key in headers :: HeaderValue(lib, key, headers[key])
  }

  lemma ValuesGrow(lib: Library, headers: map<string, Json>, keys: set<string>, key: string)
    requires key in headers
    ensures Values(lib, headers, keys + {key}) == Values(lib, headers, keys)[key := HeaderValue(lib, key, headers[key])]
    ensures Built(lib, headers, keys) == HeaderBase(lib, keys) + Values(lib, headers, keys)
    ensures Built(lib, headers, keys + {key}) == HeaderBase(lib, keys + {key}) + Values(lib, headers, keys + {key})
  {
    hide HeaderValue, HeaderBase;
  }

  lemma StepBuilds(lib: Library, headers: map<string, Json>, keys: set<string>, key: string)
    requires FoldOk(lib) && keys <= headers.Keys && key in headers && key !in keys
    ensures HeaderStep(lib, Built(lib, headers, keys), key, HeaderValue(lib, key, headers[key])) ==
      if Sensitive(lib, key) && REDACTED_FIELDS in keys then None else Some(Built(lib, headers, keys + {key}))
  {
    ValuesGrow(lib, headers, keys, key);
    BaseGrows(lib, keys, key);
    SensitiveFieldsRedactedKey(lib);
    var base, over, value := HeaderBase(lib, keys), Values(lib, headers, keys), HeaderValue(lib, key, headers[key]);
    if !Sensitive(lib, key) {
      hide *;
      PlainStep(lib, base, over, key, value);
    } else if REDACTED_FIELDS in keys {
      ListHeaderIsPlain(lib, headers[REDACTED_FIELDS]);
      assert over[REDACTED_FIELDS] == HeaderValue(lib, REDACTED_FIELDS, headers[REDACTED_FIELDS]);
      hide *;
      CrashingStep(lib, base, over, key, value);
    } else {
      assert REDACTED_FIELDS !in over;
      hide *;
      ListingStep(lib, base, over, key, value);
    }
  }

  // ---------------------------------------------------------------------------------
  // Every order gives the specified result or crashes, and crashes only where it may
  // ---------------------------------------------------------------------------------

  ghost predicate GoodField(lib: Library, key: string, v: Json, r: Option<Json>) {
    if r.Some? then r.value == FieldValue(lib, key, v) else FieldMayCrash(lib, key, v)
  }

  ghost predicate GoodValue(lib: Library, v: Json, r: Option<Json>) {
    if r.Some? then r.value == Sanitize(lib, v) else MayCrash(lib, v)
  }

  ghost predicate GoodHeaders(lib: Library, v: Json, r: Option<Json>) {
    if r.Some? then r.value == SanitizeHeaders(lib, v) else HeadersMayCrash(lib, v)
  }

  lemma {:induction false} RunFieldGood(lib: Library, ord: Order, path: seq<Place>, key: string, v: Json)
    requires FoldOk(lib) && Valid(ord)
    ensures GoodField(lib, key, v, RunField(lib, ord, path, key, v))
    decreases v, 3, 0
  {
    hide RoleOf, PrivatePath, RunValue, RunHeaders, MayCrash, HeadersMayCrash, Sanitize, SanitizeHeaders, Valid, FoldOk;
    RunValueGood(lib, ord, path, v);
    RunHeadersGood(lib, ord, path, v);
  }

  lemma {:induction false} RunFieldsGood(lib: Library, ord: Order, path: seq<Place>, fields: map<string, Json>, order: seq<string>)
    requires FoldOk(lib) && Valid(ord) && Within(order, fields)
    ensures
      var r := RunFields(lib, ord, path, fields, order);
      if r.Some? then r.value == Kept(lib, fields, Elements(order)) else MayCrash(lib, Obj(fields))
    decreases Obj(fields), 0, |order|
  {
    hide Kept, RunField, FieldMayCrash, FieldValue, Dropped, Valid, FoldOk;
    if order == [] {
      NoneKept(lib, fields);
      assert Elements(order) == {};
    } else {
      var before, key := order[..|order| - 1], order[|order| - 1];
      assert key in order;
      RunFieldsGood(lib, ord, path, fields, before);
      ElementsSnoc(order);
      KeptGrows(lib, fields, Elements(before), key);
      RunFieldGood(lib, ord, path + [Key(key)], key, fields[key]);
    }
  }

  lemma {:induction false} RunItemsGood(lib: Library, ord: Order, path: seq<Place>, items: seq<Json>, n: nat)
    requires FoldOk(lib) && Valid(ord) && n <= |items|
    ensures
      var r := RunItems(lib, ord, path, items, n);
      if r.Some? then r.value == Sanitize(lib, Arr(items)).items[..n] else MayCrash(lib, Arr(items))
    decreases Arr(items), 0, n
  {
    if n > 0 {
      hide RunValue, Valid, FoldOk;
      RunItemsGood(lib, ord, path, items, n - 1);
      RunValueGood(lib, ord, path + [Index(n - 1)], items[n - 1]);
    }
  }

  lemma {:induction false} RunValueGood(lib: Library, ord: Order, path: seq<Place>, v: Json)
    requires FoldOk(lib) && Valid(ord)
    ensures GoodValue(lib, v, RunValue(lib, ord, path, v))
    decreases v, 1, 0
  {
    match v
    case Obj(fields) =>
      assert Visits(fields, ord(path, fields));
      VisitsWithin(fields, ord(path, fields));
      hide Valid, RunFields, Kept, MayCrash, FoldOk, Sanitize;
      RunFieldsGood(lib, ord, path, fields, ord(path, fields));
      AllKept(lib, fields);
    case Arr(items) =>
      hide Valid, RunItems, MayCrash, FoldOk;
      RunItemsGood(lib, ord, path, items, |items|);
    case _ =>
  }

  lemma {:induction false} RunHeaderGood(lib: Library, ord: Order, path: seq<Place>, key: string, v: Json)
    requires FoldOk(lib) && Valid(ord)
    ensures
      var r := RunHeader(lib, ord, path, key, v);
      if r.Some? then r.value == HeaderValue(lib, key, v) else HeaderMayCrash(lib, key, v)
    decreases v, 3, 0
  {
    hide HeaderRoleOf, RunValue, MayCrash, Sanitize, Valid, FoldOk;
    RunValueGood(lib, ord, path, v);
  }

  lemma {:induction false} RunHeaderLoopGood(lib: Library, ord: Order, path: seq<Place>, headers: map<string, Json>, order: seq<string>)
    requires FoldOk(lib) && Valid(ord) && Within(order, headers) && Distinct(order)
    ensures
      var r := RunHeaderLoop(lib, ord, path, headers, order);
      if r.Some? then r.value == Built(lib, headers, Elements(order))
      else Clashes(lib, headers) || exists key | key in headers :: HeaderMayCrash(lib, key, headers[key])
    decreases Obj(headers), 0, |order|
  {
    hide Built, RunHeader, HeaderMayCrash, HeaderValue, Valid, FoldOk, Sensitive, HeaderStep, HeaderBase, Distinct;
    if order == [] {
      NothingBuilt(lib, headers);
      assert Elements(order) == {};
    } else {
      var before, key := order[..|order| - 1], order[|order| - 1];
      assert key in order;
      DistinctSnoc(order);
      RunHeaderLoopGood(lib, ord, path, headers, before);
      ElementsSnoc(order);
      RunHeaderGood(lib, ord, path + [Key(key)], key, headers[key]);
      StepBuilds(lib, headers, Elements(before), key);
    }
  }

  lemma {:induction false} RunHeadersGood(lib: Library, ord: Order, path: seq<Place>, v: Json)
    requires FoldOk(lib) && Valid(ord)
    ensures GoodHeaders(lib, v, RunHeaders(lib, ord, path, v))
    decreases v, 2, 0
  {
    if v.Obj? {
      if Marked(v.fields) {
        hide Valid, RunValue, MayCrash, FoldOk, Sanitize;
        RunValueGood(lib, ord, path, v);
      } else {
        assert Visits(v.fields, ord(path, v.fields));
        VisitsWithin(v.fields, ord(path, v.fields));
        hide Valid, RunHeaderLoop, Built, FoldOk, SanitizeHeaders, Clashes, HeaderMayCrash, Marked;
        RunHeaderLoopGood(lib, ord, path, v.fields, ord(path, v.fields));
        AllBuilt(lib, v.fields);
      }
    }
  }

  // ---------------------------------------------------------------------------------
  // Where it may crash, some order crashes
  // ---------------------------------------------------------------------------------

  /** A sensitive header is visited after the one named like the list. */
  ghost predicate Late(lib: Library, order: seq<string>) {
    exists i, j :: 0 <= i < j < |order| && order[i] == REDACTED_FIELDS && Sensitive(lib, order[j])
  }

  lemma LateSnoc(lib: Library, order: seq<string>)
    requires order != [] && Late(lib, order)
    ensures
      var before, key := order[..|order| - 1], order[|order| - 1];
      Late(lib, before) || (Sensitive(lib, key) && REDACTED_FIELDS in Elements(before))
  {
    hide Sensitive;
    var last := |order| - 1;
    var i, j :| 0 <= i < j < |order| && order[i] == REDACTED_FIELDS && Sensitive(lib, order[j]);
    assert order[..last][i] == order[i];
    if j < last { assert order[..last][j] == order[j]; }
  }

  lemma {:induction false} SomeOrder(keys: set<string>) returns (order: seq<string>)
    ensures Distinct(order) && Elements(order) == keys
    decreases |keys|
  {
    if keys == {} {
      order := [];
    } else {
      var key :| key in keys;
      var rest := SomeOrder(keys - {key});
      order := [key] + rest;
      forall i, j | 0 <= i < j < |order| ensures order[i] != order[j] {
        if i == 0 { assert rest[j - 1] in Elements(rest); }
      }
      assert Elements(order) == {key} + Elements(rest);
    }
  }

  /** The worst order there is for a map. */
  ghost predicate Worst(lib: Library, fields: map<string, Json>, order: seq<string>) {
    Visits(fields, order) && (Clashes(lib, fields) ==> Late(lib, order))
  }

  lemma WorstExists(lib: Library, fields: map<string, Json>)
    requires FoldOk(lib)
    ensures exists order :: Worst(lib, fields, order)
  {
    hide Sensitive, FoldOk;
    SensitiveFieldsRedactedKey(lib);
    if Clashes(lib, fields) {
      var key :| key in fields && Sensitive(lib, key);
      var rest := SomeOrder(fields.Keys - {REDACTED_FIELDS, key});
      var order := [REDACTED_FIELDS, key] + rest;
      forall i, j | 0 <= i < j < |order| ensures order[i] != order[j] {
        if j >= 2 { assert order[j] in Elements(rest); }
      }
      assert Elements(order) == {REDACTED_FIELDS, key} + Elements(rest);
      assert order[0] == REDACTED_FIELDS && Sensitive(lib, order[1]);
      assert Worst(lib, fields, order);
    } else {
      var order := SomeOrder(fields.Keys);
      assert Worst(lib, fields, order);
    }
  }

  ghost function WorstOrder(lib: Library, fields: map<string, Json>): (order: seq<string>)
    requires FoldOk(lib)
    ensures Worst(lib, fields, order)
  {
    WorstExists(lib, fields);
    var order :| Worst(lib, fields, order);
    order
  }

  ghost predicate Adverse(lib: Library, ord: Order) {
    Valid(ord) && forall path, fields :: Worst(lib, fields, ord(path, fields))
  }

  lemma AdverseExists(lib: Library) returns (ord: Order)
    requires FoldOk(lib)
    ensures Adverse(lib, ord)
  {
    ord := (path: seq<Place>, fields: map<string, Json>) => if FoldOk(lib) then WorstOrder(lib, fields) else [];
    hide Late, Clashes;
  }

  lemma {:induction false} FieldCrashes(lib: Library, ord: Order, path: seq<Place>, key: string, v: Json)
    requires FoldOk(lib) && Adverse(lib, ord) && FieldMayCrash(lib, key, v)
    ensures RunField(lib, ord, path, key, v).None?
    decreases v, 3, 0
  {
    hide RoleOf, PrivatePath, RunValue, RunHeaders, MayCrash, HeadersMayCrash, Worst, Valid, FoldOk;
    match RoleOf(lib, key)
    case PathLike => ValueCrashes(lib, ord, path, v);
    case HeadersLike => HeadersCrash(lib, ord, path, v);
    case Ordinary => ValueCrashes(lib, ord, path, v);
  }

  lemma {:induction false} FieldsCrash(lib: Library, ord: Order, path: seq<Place>, fields: map<string, Json>, order: seq<string>, key: string)
    requires FoldOk(lib) && Adverse(lib, ord) && Within(order, fields)
    requires key in order && !Dropped(lib, key) && FieldMayCrash(lib, key, fields[key])
    ensures RunFields(lib, ord, path, fields, order).None?
    decreases Obj(fields), 0, |order|
  {
    hide RunField, FieldMayCrash, Dropped, Adverse, Valid, FoldOk;
    var before, last := order[..|order| - 1], order[|order| - 1];
    assert order == before + [last];
    ValidOf(lib, ord);
    if last == key {
      FieldCrashes(lib, ord, path + [Key(key)], key, fields[key]);
    } else {
      FieldsCrash(lib, ord, path, fields, before, key);
    }
  }

  lemma ValidOf(lib: Library, ord: Order)
    requires Adverse(lib, ord)
    ensures Valid(ord)
  {
  }

  lemma {:induction false} ItemsCrash(lib: Library, ord: Order, path: seq<Place>, items: seq<Json>, n: nat, i: nat)
    requires FoldOk(lib) && Adverse(lib, ord) && i < n <= |items| && MayCrash(lib, items[i])
    ensures RunItems(lib, ord, path, items, n).None?
    decreases Arr(items), 0, n
  {
    hide RunValue, MayCrash, Adverse, Valid, FoldOk;
    ValidOf(lib, ord);
    if i == n - 1 {
      ValueCrashes(lib, ord, path + [Index(i)], items[i]);
    } else {
      ItemsCrash(lib, ord, path, items, n - 1, i);
    }
  }

  lemma {:induction false} ValueCrashes(lib: Library, ord: Order, path: seq<Place>, v: Json)
    requires FoldOk(lib) && Adverse(lib, ord) && MayCrash(lib, v)
    ensures RunValue(lib, ord, path, v).None?
    decreases v, 1, 0
  {
    hide FieldMayCrash, Dropped, FoldOk, Worst, RunFields, RunItems;
    match v
    case Obj(fields) =>
      var order := ord(path, fields);
      assert Visits(fields, order);
      VisitsWithin(fields, order);
      var key :| key in fields && !Dropped(lib, key) && FieldMayCrash(lib, key, fields[key]);
      assert key in Elements(order);
      FieldsCrash(lib, ord, path, fields, order, key);
    case Arr(items) =>
      var i :| 0 <= i < |items| && MayCrash(lib, items[i]);
      ItemsCrash(lib, ord, path, items, |items|, i);
  }

  lemma {:induction false} HeaderLoopCrashes(lib: Library, ord: Order, path: seq<Place>, headers: map<string, Json>, order: seq<string>, key: string)
    requires FoldOk(lib) && Adverse(lib, ord) && Within(order, headers)
    requires key in order && HeaderMayCrash(lib, key, headers[key])
    ensures RunHeaderLoop(lib, ord, path, headers, order).None?
    decreases Obj(headers), 0, |order|
  {
    hide RunValue, HeaderRoleOf, MayCrash, Adverse, Valid, FoldOk, HeaderStep;
    var before, last := order[..|order| - 1], order[|order| - 1];
    assert order == before + [last];
    ValidOf(lib, ord);
    if last == key {
      ValueCrashes(lib, ord, path + [Key(key)], headers[key]);
    } else {
      HeaderLoopCrashes(lib, ord, path, headers, before, key);
    }
  }

  lemma {:induction false} LateLoopCrashes(lib: Library, ord: Order, path: seq<Place>, headers: map<string, Json>, order: seq<string>)
    requires FoldOk(lib) && Valid(ord) && Within(order, headers) && Distinct(order) && Late(lib, order)
    ensures RunHeaderLoop(lib, ord, path, headers, order).None?
    decreases |order|
  {
    hide Built, RunHeader, HeaderMayCrash, HeaderValue, Valid, FoldOk, Sensitive, HeaderStep, Late, Distinct;
    assert order != [] by { assert !Late(lib, []) by { NeverLate(lib); } }
    var before, key := order[..|order| - 1], order[|order| - 1];
    assert key in order;
    LateSnoc(lib, order);
    DistinctSnoc(order);
    if Late(lib, before) {
      LateLoopCrashes(lib, ord, path, headers, before);
    } else {
      RunHeaderLoopGood(lib, ord, path, headers, before);
      RunHeaderGood(lib, ord, path + [Key(key)], key, headers[key]);
      StepBuilds(lib, headers, Elements(before), key);
    }
  }

  lemma NeverLate(lib: Library)
    ensures !Late(lib, [])
  {
  }

  lemma {:induction false} HeadersCrash(lib: Library, ord: Order, path: seq<Place>, v: Json)
    requires FoldOk(lib) && Adverse(lib, ord) && HeadersMayCrash(lib, v)
    ensures RunHeaders(lib, ord, path, v).None?
    decreases v, 2, 0
  {
    hide FoldOk, RunHeaderLoop, HeaderMayCrash, Clashes, Late, Sensitive;
    if Marked(v.fields) {
      ValueCrashes(lib, ord, path, v);
    } else {
      var order := ord(path, v.fields);
      assert Worst(lib, v.fields, order);
      VisitsWithin(v.fields, order);
      if Clashes(lib, v.fields) {
        LateLoopCrashes(lib, ord, path, v.fields, order);
      } else {
        var key :| key in v.fields && HeaderMayCrash(lib, key, v.fields[key]);
        assert key in Elements(order);
        HeaderLoopCrashes(lib, ord, path, v.fields, order, key);
      }
    }
  }

  // ---------------------------------------------------------------------------------
  // The theorems
  // ---------------------------------------------------------------------------------

  /**
    The redactor finishes with the specified result, in every order its maps may be
    visited in, exactly when no headers object it walks into both has a header named like
    the list of redacted names and a sensitive one.
   */
  lemma RedactorIsSafeIff(lib: Library, v: Json)
    requires FoldOk(lib)
    ensures (forall ord: Order | Valid(ord) :: RunValue(lib, ord, [], v) == Some(Sanitize(lib, v))) <==> !MayCrash(lib, v)
  {
    hide Valid, RunValue, Sanitize, MayCrash, FoldOk;
    forall ord: Order | Valid(ord) ensures GoodValue(lib, v, RunValue(lib, ord, [], v)) {
      RunValueGood(lib, ord, [], v);
    }
    if MayCrash(lib, v) {
      var ord := AdverseExists(lib);
      ValidOf(lib, ord);
      ValueCrashes(lib, ord, [], v);
    }
  }

  /** The same for one headers object by itself. */
  lemma HeadersAreSafeIff(lib: Library, path: seq<Place>, v: Json)
    requires FoldOk(lib)
    ensures (forall ord: Order | Valid(ord) :: RunHeaders(lib, ord, path, v) == Some(SanitizeHeaders(lib, v))) <==>
            !HeadersMayCrash(lib, v)
  {
    hide Valid, RunHeaders, SanitizeHeaders, HeadersMayCrash, FoldOk;
    forall ord: Order | Valid(ord) ensures GoodHeaders(lib, v, RunHeaders(lib, ord, path, v)) {
      RunHeadersGood(lib, ord, path, v);
    }
    if HeadersMayCrash(lib, v) {
      var ord := AdverseExists(lib);
      ValidOf(lib, ord);
      HeadersCrash(lib, ord, path, v);
    }
  }

  /** An input that crashes the redactor in some order. */
  lemma NestedHeadersCanCrash(lib: Library)
    requires FoldOk(lib)
    ensures MayCrash(lib, Obj(map["headers" := Obj(map[REDACTED_FIELDS := Null, "token" := Null])]))
  {
    hide FoldOk, Sensitive, RoleOf, Dropped;
    TokenIsSensitive(lib);
    HeadersRole(lib);
    var headers := map[REDACTED_FIELDS := Null, "token" := Null];
    assert "input_redacted" !in headers by { assert |"input_redacted"| == 14 && |REDACTED_FIELDS| == 25 && |"token"| == 5; }
    assert "token" in headers && Clashes(lib, headers);
    assert HeadersMayCrash(lib, Obj(headers));
    assert FieldMayCrash(lib, "headers", Obj(headers));
    assert "headers" in map["headers" := Obj(headers)];
  }

  /** Whatever the order, what comes out at all is the specified value, and it is clean. */
  lemma AnyOrderIsClean(lib: Library, ord: Order, v: Json)
    requires FoldOk(lib) && Valid(ord) && RunValue(lib, ord, [], v).Some?
    ensures RunValue(lib, ord, [], v).value == Sanitize(lib, v) && Clean(lib, Sanitize(lib, v))
  {
    hide Valid, RunValue, Sanitize, MayCrash, FoldOk, Clean;
    RunValueGood(lib, ord, [], v);
    SanitizedIsClean(lib, v);
  }

  // ---------------------------------------------------------------------------------
  // The loops
  // ---------------------------------------------------------------------------------

  method SanitizeField(lib: Library, ord: Order, path: seq<Place>, key: string, v: Json) returns (r: Option<Json>)
    requires Valid(ord)
    ensures r == RunField(lib, ord, path, key, v)
    decreases v, 3, 0
  {
    hide Valid, PrivatePath, RunValue, RunHeaders, FieldValue, RoleOf;
    match RoleOf(lib, key)
    case PathLike =>
      if PrivatePath(lib.Text(v)) {
        r := Some(FieldValue(lib, key, v));
      } else {
        r := SanitizeResponseValue(lib, ord, path, v);
      }
    case HeadersLike => r := SanitizeResponseHeaders(lib, ord, path, v);
    case Ordinary => r := SanitizeResponseValue(lib, ord, path, v);
    case _ => r := Some(FieldValue(lib, key, v));
  }

  lemma NoFields(lib: Library, ord: Order, path: seq<Place>, fields: map<string, Json>)
    requires Valid(ord)
    ensures RunFields(lib, ord, path, fields, []) == Some(map[])
  {
  }

  lemma NextField(lib: Library, ord: Order, path: seq<Place>, fields: map<string, Json>, order: seq<string>, i: nat)
    requires Valid(ord) && Within(order, fields) && i < |order|
    requires RunFields(lib, ord, path, fields, order[..i]).Some?
    ensures
      var out, key := RunFields(lib, ord, path, fields, order[..i]).value, order[i];
      RunFields(lib, ord, path, fields, order[..i + 1]) ==
      if Dropped(lib, key) then Some(out)
      else match RunField(lib, ord, path + [Key(key)], key, fields[key])
        case None => None
        case Some(value) => Some(out[key := value])
  {
    hide Valid, RunField, Dropped;
    assert order[..i + 1][..i] == order[..i];
  }

  lemma RunObject(lib: Library, ord: Order, path: seq<Place>, v: Json)
    requires Valid(ord) && v.Obj?
    ensures Within(ord(path, v.fields), v.fields)
    ensures RunValue(lib, ord, path, v) ==
      match RunFields(lib, ord, path, v.fields, ord(path, v.fields))
      case None => None
      case Some(out) => Some(Obj(out))
  {
    VisitsWithin(v.fields, ord(path, v.fields));
  }

  lemma OneOf(fields: map<string, Json>, order: seq<string>, i: nat)
    requires Within(order, fields) && i < |order|
    ensures order[i] in fields && Within(order[..i], fields) && Within(order[..i + 1], fields)
  {
  }

  method SanitizeObject(lib: Library, ord: Order, path: seq<Place>, v: Json) returns (r: Option<Json>)
    requires Valid(ord) && v.Obj?
    ensures r == RunValue(lib, ord, path, v)
    decreases v, 0, 0
  {
    var order := ord(path, v.fields);
    RunObject(lib, ord, path, v);
    hide Valid, RunField, RunFields, RunValue, Dropped, Within;
    var out: map<string, Json> := map[];
    NoFields(lib, ord, path, v.fields);
    for i := 0 to |order|
      invariant RunFields(lib, ord, path, v.fields, order[..i]) == Some(out)
    {
      NextField(lib, ord, path, v.fields, order, i);
      var key := order[i];
      OneOf(v.fields, order, i);
      if !Dropped(lib, key) {
        var child := SanitizeField(lib, ord, path + [Key(key)], key, v.fields[key]);
        if child.None? {
          StaysCrashed(lib, ord, path, v.fields, order, i + 1);
          return None;
        }
        out := out[key := child.value];
      }
    }
    assert order[..|order|] == order;
    r := Some(Obj(out));
  }

  method SanitizeArray(lib: Library, ord: Order, path: seq<Place>, v: Json) returns (r: Option<Json>)
    requires Valid(ord) && v.Arr?
    ensures r == RunValue(lib, ord, path, v)
    decreases v, 0, 0
  {
    hide Valid;
    var out: seq<Json> := [];
    for i := 0 to |v.items|
      invariant RunItems(lib, ord, path, v.items, i) == Some(out)
    {
      var child := SanitizeResponseValue(lib, ord, path + [Index(i)], v.items[i]);
      if child.None? {
        ItemsStayCrashed(lib, ord, path, v.items, i + 1);
        return None;
      }
      out := out + [child.value];
    }
    r := Some(Arr(out));
  }

  method SanitizeResponseValue(lib: Library, ord: Order, path: seq<Place>, v: Json) returns (r: Option<Json>)
    requires Valid(ord)
    ensures r == RunValue(lib, ord, path, v)
    decreases v, 1, 0
  {
    hide Valid;
    match v
    case Obj(_) => r := SanitizeObject(lib, ord, path, v);
    case Arr(_) => r := SanitizeArray(lib, ord, path, v);
    case _ => r := Some(Sanitize(lib, v));
  }

  lemma {:induction false} StaysCrashed(lib: Library, ord: Order, path: seq<Place>, fields: map<string, Json>, order: seq<string>, n: nat)
    requires Valid(ord) && Within(order, fields) && n <= |order|
    requires RunFields(lib, ord, path, fields, order[..n]).None?
    ensures RunFields(lib, ord, path, fields, order).None?
    decreases |order| - n
  {
    hide Valid, RunField;
    if n == |order| {
      assert order[..n] == order;
    } else {
      assert order[..n + 1][..n] == order[..n];
      StaysCrashed(lib, ord, path, fields, order, n + 1);
    }
  }

  lemma {:induction false} ItemsStayCrashed(lib: Library, ord: Order, path: seq<Place>, items: seq<Json>, n: nat)
    requires Valid(ord) && n <= |items| && RunItems(lib, ord, path, items, n).None?
    ensures RunItems(lib, ord, path, items, |items|).None?
    decreases |items| - n
  {
    hide Valid, RunValue;
    if n < |items| { ItemsStayCrashed(lib, ord, path, items, n + 1); }
  }

  lemma {:induction false} LoopStaysCrashed(lib: Library, ord: Order, path: seq<Place>, headers: map<string, Json>, order: seq<string>, n: nat)
    requires Valid(ord) && Within(order, headers) && n <= |order|
    requires RunHeaderLoop(lib, ord, path, headers, order[..n]).None?
    ensures RunHeaderLoop(lib, ord, path, headers, order).None?
    decreases |order| - n
  {
    hide Valid, RunHeader, HeaderStep;
    if n == |order| {
      assert order[..n] == order;
    } else {
      assert order[..n + 1][..n] == order[..n];
      LoopStaysCrashed(lib, ord, path, headers, order, n + 1);
    }
  }

  method SanitizeHeader(lib: Library, ord: Order, path: seq<Place>, key: string, v: Json) returns (r: Option<Json>)
    requires Valid(ord)
    ensures r == RunHeader(lib, ord, path, key, v)
    decreases v, 3, 0
  {
    hide Valid, HeaderRoleOf, HeaderValue, RunValue;
    if HeaderRoleOf(lib, key).AllowedHeader? {
      r := SanitizeResponseValue(lib, ord, path, v);
    } else {
      r := Some(HeaderValue(lib, key, v));
    }
  }

  method AddHeader(lib: Library, out: map<string, Json>, key: string, value: Json) returns (r: Option<map<string, Json>>)
    ensures r == HeaderStep(lib, out, key, value)
  {
    hide Sensitive;
    var out1 := out[key := value];
    if Sensitive(lib, key) {
      if REDACTED_FIELDS !in out1 || !out1[REDACTED_FIELDS].Names? {
        return None;
      }
      out1 := out1[REDACTED_FIELDS := Names(out1[REDACTED_FIELDS].names + {key})];
    }
    r := Some(out1);
  }

  lemma RunUnmarked(lib: Library, ord: Order, path: seq<Place>, v: Json)
    requires Valid(ord) && v.Obj? && !Marked(v.fields)
    ensures Within(ord(path, v.fields), v.fields)
    ensures RunHeaders(lib, ord, path, v) ==
      match RunHeaderLoop(lib, ord, path, v.fields, ord(path, v.fields))
      case None => None
      case Some(out) => Some(Obj(out))
  {
    VisitsWithin(v.fields, ord(path, v.fields));
  }

  lemma NoHeaders(lib: Library, ord: Order, path: seq<Place>, headers: map<string, Json>)
    requires Valid(ord)
    ensures RunHeaderLoop(lib, ord, path, headers, []) == Some(HeaderBase(lib, {}))
  {
  }

  lemma NextHeader(lib: Library, ord: Order, path: seq<Place>, headers: map<string, Json>, order: seq<string>, i: nat)
    requires Valid(ord) && Within(order, headers) && i < |order|
    requires RunHeaderLoop(lib, ord, path, headers, order[..i]).Some?
    ensures
      var out, key := RunHeaderLoop(lib, ord, path, headers, order[..i]).value, order[i];
      RunHeaderLoop(lib, ord, path, headers, order[..i + 1]) ==
      match RunHeader(lib, ord, path + [Key(key)], key, headers[key])
      case None => None
      case Some(value) => HeaderStep(lib, out, key, value)
  {
    hide Valid, RunHeader, HeaderStep;
    assert order[..i + 1][..i] == order[..i];
  }

  method SanitizeResponseHeaders(lib: Library, ord: Order, path: seq<Place>, v: Json) returns (r: Option<Json>)
    requires Valid(ord)
    ensures r == RunHeaders(lib, ord, path, v)
    decreases v, 2, 0
  {
    if !v.Obj? {
      return Some(SanitizeHeaders(lib, v));
    }
    if Marked(v.fields) {
      r := SanitizeResponseValue(lib, ord, path, v);
      return;
    }
    RunUnmarked(lib, ord, path, v);
    hide Valid, RunHeader, RunHeaderLoop, RunHeaders, HeaderStep, HeaderBase, Within;
    var order := ord(path, v.fields);
    var out := HeaderBase(lib, {});
    NoHeaders(lib, ord, path, v.fields);
    for i := 0 to |order|
      invariant RunHeaderLoop(lib, ord, path, v.fields, order[..i]) == Some(out)
    {
      NextHeader(lib, ord, path, v.fields, order, i);
      OneOf(v.fields, order, i);
      var key := order[i];
      var child := SanitizeHeader(lib, ord, path + [Key(key)], key, v.fields[key]);
      var next := None;
      if child.Some? {
        next := AddHeader(lib, out, key, child.value);
      }
      if next.None? {
        LoopStaysCrashed(lib, ord, path, v.fields, order, i + 1);
        return None;
      }
      out := next.value;
    }
    assert order[..|order|] == order;
    r := Some(Obj(out));
  }
}
