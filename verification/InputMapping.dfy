/**
  Input mappings of contract bindings: the validator that accepts a mapping when it is
  bound (`validateContractInputMapping` in api/routes_contracts.go) and the renaming that
  later relies on it (`mapBoundActionInput` in api/routes_actions.go).
 */
module InputMapping {
  import opened Prelude
  import opened Text

  datatype Descriptor = Descriptor(name: string, hasDefault: bool, annotation: Option<string>)

  datatype MappingError =
    | WrongCount
    | MissingMapping(name: string)
    | InvalidTarget(target: string)
    | DuplicateTarget(target: string)
    | UnknownParameter(name: string)

  datatype InputError = Unexpected(name: string) | MissingRequired(name: string) | WrongType(name: string)

  // ---------------------------------------------------------------------------------
  // Names
  // ---------------------------------------------------------------------------------

  predicate IsLetter(c: char) { 'a' <= c <= 'z' || 'A' <= c <= 'Z' }

  predicate IsNameChar(c: char) {
    IsLetter(c) || '0' <= c <= '9' || c == '_' || c == '.' || c == ':' || c == '-'
  }

  /** A letter and up to 127 name characters. */
  predicate IsName(s: string) {
    1 <= |s| <= 128 && IsLetter(s[0]) && forall i | 1 <= i < |s| :: IsNameChar(s[i])
  }

  lemma NameHasNoPadding(s: string)
    requires IsName(s)
    ensures Trim(s) == s
  {
    assert IsNameChar(s[0]) && IsNameChar(s[|s| - 1]);
  }

  // ---------------------------------------------------------------------------------
  // Validation
  // ---------------------------------------------------------------------------------

  function Names(ds: seq<Descriptor>): set<string> { set i | 0 <= i < |ds| :: ds[i].name }

  ghost predicate NamesDistinct(ds: seq<Descriptor>) {
    forall i, j | 0 <= i < j < |ds| :: ds[i].name != ds[j].name
  }

  /** What acceptance means: one valid target for every parameter and no other, no two alike after trimming. */
  ghost predicate MappingOk(ds: seq<Descriptor>, m: map<string, string>) {
    && NamesDistinct(ds)
    && m.Keys == Names(ds)
    && (forall n | n in m :: IsName(Trim(m[n])))
    && (forall n, n' | n in m && n' in m && n != n' :: Trim(m[n]) != Trim(m[n']))
  }

  /** The first `n` parameters have targets, and these differ after trimming. */
  ghost predicate TargetsOk(ds: seq<Descriptor>, m: map<string, string>, n: nat)
    requires n <= |ds|
  {
    && (forall i | 0 <= i < n :: ds[i].name in m && IsName(Trim(m[ds[i].name])))
    && (forall i, j | 0 <= i < j < n :: Trim(m[ds[i].name]) != Trim(m[ds[j].name]))
  }

  lemma {:induction false} NamesCount(ds: seq<Descriptor>)
    requires NamesDistinct(ds)
    ensures |Names(ds)| == |ds|
  {
    if ds != [] {
      var n := |ds| - 1;
      NamesCount(ds[..n]);
      assert Names(ds) == Names(ds[..n]) + {ds[n].name};
    }
  }

  lemma SubsetSize<T>(a: set<T>, b: set<T>)
    requires a <= b && |a| == |b|
    ensures a == b
  {
    if x :| x in b && x !in a {
      assert a + {x} <= b;
      SubsetCount(a + {x}, b);
      assert false;
    }
  }

  lemma {:induction false} SubsetCount<T>(a: set<T>, b: set<T>)
    requires a <= b
    ensures |a| <= |b|
  {
    if a != {} {
      var x :| x in a;
      SubsetCount(a - {x}, b - {x});
    }
  }

  /**
    Once the counts agree and every parameter has a target of its own, the parameters are
    distinct and the mapping has no other key: its last check cannot fail.
   */
  lemma NoUnknownParameter(ds: seq<Descriptor>, m: map<string, string>)
    requires |m| == |ds| && TargetsOk(ds, m, |ds|)
    ensures NamesDistinct(ds) && m.Keys == Names(ds)
  {
    forall i, j | 0 <= i < j < |ds| ensures ds[i].name != ds[j].name {
      assert Trim(m[ds[i].name]) != Trim(m[ds[j].name]);
    }
    NamesCount(ds);
    assert |m.Keys| == |m|;
    SubsetSize(Names(ds), m.Keys);
  }

  lemma TargetsIff(ds: seq<Descriptor>, m: map<string, string>)
    ensures MappingOk(ds, m) <==> |m| == |ds| && TargetsOk(ds, m, |ds|)
  {
    if MappingOk(ds, m) {
      NamesCount(ds);
      assert |m.Keys| == |m|;
      assert forall i | 0 <= i < |ds| :: ds[i].name in Names(ds);
    }
    if |m| == |ds| && TargetsOk(ds, m, |ds|) {
      NoUnknownParameter(ds, m);
      forall n | n in m ensures exists i | 0 <= i < |ds| :: ds[i].name == n {
        assert n in Names(ds);
      }
      forall n, n' | n in m && n' in m && n != n' ensures Trim(m[n]) != Trim(m[n']) {
        var i :| 0 <= i < |ds| && ds[i].name == n;
        var j :| 0 <= j < |ds| && ds[j].name == n';
      }
    }
  }

  /** The reported error is true of the mapping. */
  ghost predicate MappingErrorHolds(ds: seq<Descriptor>, m: map<string, string>, e: MappingError) {
    match e
    case WrongCount => |m| != |ds|
    case MissingMapping(n) => n in Names(ds) && (n in m ==> Trim(m[n]) == "")
    case InvalidTarget(t) => !IsName(t) && exists n | n in Names(ds) && n in m :: Trim(m[n]) == t
    case DuplicateTarget(t) =>
      exists i, j | 0 <= i < j < |ds| && ds[i].name in m && ds[j].name in m :: Trim(m[ds[i].name]) == Trim(m[ds[j].name]) == t
    case UnknownParameter(n) => n in m && n !in Names(ds)
  }

  /** The loop over the parameters. */
  method CheckTargets(ds: seq<Descriptor>, m: map<string, string>) returns (r: Option<MappingError>)
    ensures r.None? <==> TargetsOk(ds, m, |ds|)
    ensures r.Some? ==> MappingErrorHolds(ds, m, r.value)
  {
    hide Trim, IsName;
    var targets: set<string> := {};
    for i := 0 to |ds|
      invariant TargetsOk(ds, m, i)
      invariant forall t :: t in targets <==> exists j | 0 <= j < i :: Trim(m[ds[j].name]) == t
    {
      var name := ds[i].name;
      assert name in Names(ds);
      var target := if name in m then Trim(m[name]) else "";
      if target == "" {
        EmptyIsNoName(target);
        return Some(MissingMapping(name));
      }
      if !IsName(target) {
        return Some(InvalidTarget(target));
      }
      if target in targets {
        return Some(DuplicateTarget(target));
      }
      targets := targets + {target};
    }
    r := None;
  }

  lemma EmptyIsNoName(s: string)
    requires s == ""
    ensures !IsName(s)
  {
  }

  /** The loop over the keys of the mapping. */
  method CheckKeys(ds: seq<Descriptor>, m: map<string, string>) returns (r: Option<MappingError>)
    ensures r.None? <==> m.Keys <= Names(ds)
    ensures r.Some? ==> MappingErrorHolds(ds, m, r.value)
  {
    hide Trim, IsName;
    var keys := m.Keys;
    while keys != {}
      invariant keys <= m.Keys
      invariant m.Keys - keys <= Names(ds)
      decreases keys
    {
      var parameter :| parameter in keys;
      var found := false;
      for i := 0 to |ds|
        invariant !found && parameter !in Names(ds[..i])
      {
        if ds[i].name == parameter {
          found := true;
          break;
        }
        assert Names(ds[..i + 1]) == Names(ds[..i]) + {ds[i].name};
      }
      assert ds[..|ds|] == ds;
      if !found {
        return Some(UnknownParameter(parameter));
      }
      keys := keys - {parameter};
    }
    r := None;
  }

  method ValidateContractInputMapping(ds: seq<Descriptor>, m: map<string, string>) returns (r: Option<MappingError>)
    ensures r.None? <==> MappingOk(ds, m)
    ensures r.Some? ==> MappingErrorHolds(ds, m, r.value)
  {
    hide Trim, IsName;
    TargetsIff(ds, m);
    if |m| != |ds| {
      return Some(WrongCount);
    }
    r := CheckTargets(ds, m);
    if r.None? {
      r := CheckKeys(ds, m);
    }
  }

  ghost predicate Injective(m: map<string, string>) {
    forall n, n' | n in m && n' in m && n != n' :: m[n] != m[n']
  }

  /** Targets are compared trimmed but used raw; raw targets are distinct all the same. */
  lemma RawTargetsDistinct(ds: seq<Descriptor>, m: map<string, string>)
    requires MappingOk(ds, m)
    ensures Injective(m)
  {
    forall n, n' | n in m && n' in m && n != n' ensures m[n] != m[n'] {
      assert Trim(m[n]) != Trim(m[n']);
    }
  }

  /** The fields an accepted mapping writes are valid names exactly when no target is padded. */
  lemma TargetsAreNamesIffUnpadded(ds: seq<Descriptor>, m: map<string, string>)
    requires MappingOk(ds, m)
    ensures (forall n | n in m :: IsName(m[n])) <==> (forall n | n in m :: Trim(m[n]) == m[n])
  {
    forall n | n in m && IsName(m[n]) ensures Trim(m[n]) == m[n] {
      NameHasNoPadding(m[n]);
    }
  }

  /** Any name with spaces around it is accepted as a target, and is then not the name that was checked. */
  lemma PaddedTargetIsAccepted(left: string, target: string, right: string)
    requires AllSpace(left) && AllSpace(right) && left + right != "" && IsName(target)
    ensures
      var ds := [Descriptor("x", false, None)];
      var m := map["x" := left + target + right];
      MappingOk(ds, m) && !IsName(m["x"])
  {
    var ds := [Descriptor("x", false, None)];
    var padded := left + target + right;
    assert Unpadded(target) by { assert IsNameChar(target[0]) && IsNameChar(target[|target| - 1]); }
    TrimPadded(left, target, right);
    if IsName(padded) { NameHasNoPadding(padded); }
    assert Names(ds) == {"x"} by { assert ds[0].name == "x"; }
  }

  // ---------------------------------------------------------------------------------
  // Renaming
  // ---------------------------------------------------------------------------------

  function Target(m: map<string, string>, name: string): string { if name in m then m[name] else "" }

  /** The input is acceptable: no other field, every required field, every value of its declared type. */
  ghost predicate InputOk<V(!new)>(ds: seq<Descriptor>, input: map<string, V>, typeOk: (Descriptor, V) -> bool) {
    && input.Keys <= Names(ds)
    && forall i | 0 <= i < |ds| ::
         if ds[i].name in input then typeOk(ds[i], input[ds[i].name]) else ds[i].hasDefault
  }

  /** The fields written for the first `n` parameters. */
  function Rename<V>(ds: seq<Descriptor>, m: map<string, string>, input: map<string, V>, n: nat): map<string, V>
    requires n <= |ds|
  {
    if n == 0 then map[]
    else
      var before := Rename(ds, m, input, n - 1);
      var name := ds[n - 1].name;
      if name in input then before[Target(m, name) := input[name]] else before
  }

  ghost predicate InputErrorHolds<V(!new)>(ds: seq<Descriptor>, input: map<string, V>, typeOk: (Descriptor, V) -> bool, e: InputError) {
    match e
    case Unexpected(n) => n in input && n !in Names(ds)
    case MissingRequired(n) => exists i | 0 <= i < |ds| :: ds[i].name == n && n !in input && !ds[i].hasDefault
    case WrongType(n) => exists i | 0 <= i < |ds| :: ds[i].name == n && n in input && !typeOk(ds[i], input[n])
  }

  method MapBoundActionInput<V(!new)>(ds: seq<Descriptor>, m: map<string, string>, input: map<string, V>,
                                     typeOk: (Descriptor, V) -> bool)
    returns (r: Result<map<string, V>, InputError>)
    ensures r.Ok? <==> InputOk(ds, input, typeOk)
    ensures r.Ok? ==> r.value == Rename(ds, m, input, |ds|)
    ensures r.Err? ==> InputErrorHolds(ds, input, typeOk, r.error)
  {
    var known: map<string, Descriptor> := map[];
    for i := 0 to |ds|
      invariant known.Keys == Names(ds[..i])
    {
      known := known[ds[i].name := ds[i]];
      assert Names(ds[..i + 1]) == Names(ds[..i]) + {ds[i].name};
    }
    assert ds[..|ds|] == ds;
    var keys := input.Keys;
    while keys != {}
      invariant keys <= input.Keys
      invariant input.Keys - keys <= Names(ds)
      decreases keys
    {
      var key :| key in keys;
      if key !in known {
        return Err(Unexpected(key));
      }
      keys := keys - {key};
    }
    var mapped: map<string, V> := map[];
    for i := 0 to |ds|
      invariant mapped == Rename(ds, m, input, i)
      invariant forall j | 0 <= j < i ::
                  if ds[j].name in input then typeOk(ds[j], input[ds[j].name]) else ds[j].hasDefault
    {
      var name := ds[i].name;
      if name !in input {
        if !ds[i].hasDefault {
          return Err(MissingRequired(name));
        }
      } else {
        if !typeOk(ds[i], input[name]) {
          return Err(WrongType(name));
        }
        mapped := mapped[Target(m, name) := input[name]];
      }
    }
    r := Ok(mapped);
  }

  /** Reading a mapping backwards. */
  function Restore<V>(m: map<string, string>, output: map<string, V>): map<string, V> {
    map n | n in m && m[n] in output :: output[m[n]]
  }

  /** The inputs among the first `n` parameters. */
  function Present<V>(ds: seq<Descriptor>, input: map<string, V>, n: nat): set<string>
    requires n <= |ds|
  {
    if n == 0 then {}
    else if ds[n - 1].name in input then Present(ds, input, n - 1) + {ds[n - 1].name}
    else Present(ds, input, n - 1)
  }

  lemma {:induction false} PresentMember<V>(ds: seq<Descriptor>, input: map<string, V>, n: nat, k: string)
    requires n <= |ds|
    ensures k in Present(ds, input, n) <==> k in input && exists i | 0 <= i < n :: ds[i].name == k
  {
    if n > 0 { PresentMember(ds, input, n - 1, k); }
  }

  /** After `n` parameters exactly the inputs among them have been written, each to its own field. */
  lemma {:induction false} RenameHolds<V>(ds: seq<Descriptor>, m: map<string, string>, input: map<string, V>, n: nat, k: string)
    requires Injective(m) && n <= |ds| && k in m && forall i | 0 <= i < |ds| :: ds[i].name in m
    ensures
      var output := Rename(ds, m, input, n);
      && (m[k] in output <==> k in Present(ds, input, n))
      && (m[k] in output ==> k in input && output[m[k]] == input[k])
  {
    if n > 0 { RenameHolds(ds, m, input, n - 1, k); }
  }

  lemma {:induction false} RenameCounts<V>(ds: seq<Descriptor>, m: map<string, string>, input: map<string, V>, n: nat)
    requires Injective(m) && n <= |ds| && forall i | 0 <= i < |ds| :: ds[i].name in m
    ensures |Rename(ds, m, input, n)| == |Present(ds, input, n)|
  {
    hide Injective;
    if n > 0 {
      var name := ds[n - 1].name;
      RenameCounts(ds, m, input, n - 1);
      RenameHolds(ds, m, input, n - 1, name);
      if name in input {
        AddsOne(Rename(ds, m, input, n - 1), m[name], input[name], Present(ds, input, n - 1), name);
      }
    }
  }

  lemma AddsOne<K, V, T>(m: map<K, V>, k: K, v: V, s: set<T>, x: T)
    requires |m| == |s| && (k in m <==> x in s)
    ensures |m[k := v]| == |s + {x}|
  {
    if k in m {
      assert s + {x} == s;
      assert m[k := v].Keys == m.Keys;
    } else {
      assert m[k := v].Keys == m.Keys + {k};
    }
  }

  lemma AllPresent<V>(ds: seq<Descriptor>, input: map<string, V>)
    requires input.Keys <= Names(ds)
    ensures Present(ds, input, |ds|) == input.Keys
  {
    forall k ensures k in Present(ds, input, |ds|) <==> k in input {
      PresentMember(ds, input, |ds|, k);
      if k in input { assert k in Names(ds); }
    }
  }

  /**
    Under an accepted mapping the renaming loses nothing: reading the mapping backwards
    on its output gives the input again, and there are as many fields as before.
   */
  lemma RenamingIsLossless<V(!new)>(ds: seq<Descriptor>, m: map<string, string>, input: map<string, V>,
                                    typeOk: (Descriptor, V) -> bool)
    requires MappingOk(ds, m) && InputOk(ds, input, typeOk)
    ensures
      var output := Rename(ds, m, input, |ds|);
      Restore(m, output) == input && |output| == |input|
  {
    hide Trim, IsName;
    RawTargetsDistinct(ds, m);
    assert forall i | 0 <= i < |ds| :: ds[i].name in Names(ds);
    AllPresent(ds, input);
    InjectiveRenaming(ds, m, input);
  }

  lemma InjectiveRenaming<V>(ds: seq<Descriptor>, m: map<string, string>, input: map<string, V>)
    requires Injective(m) && input.Keys <= m.Keys && forall i | 0 <= i < |ds| :: ds[i].name in m
    requires Present(ds, input, |ds|) == input.Keys
    ensures
      var output := Rename(ds, m, input, |ds|);
      Restore(m, output) == input && |output| == |input|
  {
    hide Injective;
    RenameCounts(ds, m, input, |ds|);
    assert |input.Keys| == |input|;
    var output := Rename(ds, m, input, |ds|);
    forall k | k in m
      ensures m[k] in output <==> k in input
      ensures m[k] in output ==> output[m[k]] == input[k]
    {
      RenameHolds(ds, m, input, |ds|, k);
    }
  }
}
