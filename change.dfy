/**
 * database/change.go: the change detector. GetChanges walks the fields of a
 * "current" record in declaration order, compares each with the same-named
 * field of a "requested" record by a rule chosen by the field's kind, and for
 * every field that counts as changed records a Change, its column name and a
 * column -> value parameter, writing requested's value back into current.
 * Reflection is replaced by indexing: a record is a sequence of fields, each
 * with its Go name, its `db` tag and a kind-tagged value; current is an array
 * updated in place.
 */
module Changes {
  import opened Wrappers

  /** shopspring decimal.Decimal, as an unscaled value and an exponent. */
  datatype Decimal = Decimal(unscaled: int, exp: int)

  const ZeroDecimal := Decimal(0, 0)

  /** A field value, tagged with the kind GetChanges dispatches on. */
  datatype Value =
    | StrV(s: string)                              // string
    | IntV(i: int)                                 // int
    | Int64V(i: int)                               // int64
    | BoolV(b: bool)                               // bool
    | ZeroString(str: string, valid: bool)         // zero.String
    | ZeroInt(int64: int, valid: bool)             // zero.Int
    | ZeroBool(flag: bool, valid: bool)            // zero.Bool
    | NullDecimal(decimal: Decimal, valid: bool)   // decimal.NullDecimal
    | Untracked(typeName: string)                  // any other kind or struct type

  /** One struct field: its Go name, its `db` tag ("" when absent) and its value. */
  datatype Field = Field(name: string, db: string, value: Value)

  /** The Change record; fields it does not set keep Go's zero values. */
  datatype Change = Change(key: string, name: string, str: string, num: int, truth: bool, decimal: Decimal)

  /** A value stored in the named-parameter map (an `interface{}` in the source). */
  datatype Param = PStr(s: string) | PInt(i: int) | PBool(b: bool) | PDec(d: Decimal)

  /** reflect.Type.FieldByName on the requested record: the first field with that name. */
  function Lookup(c: seq<Field>, name: string): (r: Option<Field>)
    ensures r.Some? ==> r.value in c && r.value.name == name
    ensures r.None? ==> forall j :: 0 <= j < |c| ==> c[j].name != name
  {
    if c == [] then None
    else if c[0].name == name then Some(c[0])
    else Lookup(c[1..], name)
  }

  /**
   * A field of current is compared when it is not DBInterface or Id and the
   * requested record has a same-named field with a non-empty db tag.
   */
  predicate Examined(f: Field, c: seq<Field>)
  {
    f.name != "DBInterface" && f.name != "Id" &&
    Lookup(c, f.name).Some? && Lookup(c, f.name).value.db != ""
  }

  predicate SameKind(a: Value, b: Value)
  {
    (a.StrV? && b.StrV?) || (a.IntV? && b.IntV?) || (a.Int64V? && b.Int64V?) ||
    (a.BoolV? && b.BoolV?) || (a.ZeroString? && b.ZeroString?) || (a.ZeroInt? && b.ZeroInt?) ||
    (a.ZeroBool? && b.ZeroBool?) || (a.NullDecimal? && b.NullDecimal?) || (a.Untracked? && b.Untracked?)
  }

  /** The reflective accessors and Set calls do not panic: each compared pair has one kind. */
  predicate KindsAgree(f: Field, c: seq<Field>)
  {
    Examined(f, c) ==> SameKind(f.value, Lookup(c, f.name).value.value)
  }

  predicate AllKindsAgree(fs: seq<Field>, c: seq<Field>)
  {
    forall i :: 0 <= i < |fs| ==> KindsAgree(fs[i], c)
  }

  /** What comparing one field produces: a Change, a map write, and current's new value. */
  datatype Outcome = Outcome(change: Option<Change>, param: Option<(string, Param)>, value: Value)

  function NewChange(f: Field): Change
  {
    Change(f.name, f.db, "", 0, false, ZeroDecimal)
  }

  /** getChanges on one compared field, `r` being requested's value. */
  function Step(insert: bool, f: Field, r: Value): Outcome
    requires SameKind(f.value, r)
  {
    var ch := NewChange(f);
    match f.value
    case ZeroString(s, _) =>
      if s != r.str && r.str != "" then Outcome(Some(ch.(str := r.str)), Some((f.db, PStr(r.str))), r)
      else Outcome(None, None, f.value)
    case ZeroInt(n, valid) =>
      if n != r.int64 && r.int64 != 0 then
        Outcome(Some(ch.(num := r.int64)), Some((f.db, PInt(r.int64))), ZeroInt(r.int64, valid))
      else if insert then Outcome(None, Some(("", PInt(r.int64))), r)
      else Outcome(None, None, f.value)
    case ZeroBool(_, _) => Outcome(Some(ch.(truth := r.flag)), Some((f.db, PBool(r.flag))), f.value)
    case NullDecimal(_, _) => Outcome(Some(ch.(decimal := r.decimal)), Some((f.db, PDec(r.decimal))), r)
    case StrV(s) =>
      if s != r.s then Outcome(Some(ch.(str := r.s)), Some((f.db, PStr(r.s))), r)
      else Outcome(None, None, f.value)
    case Int64V(n) =>
      if n != r.i then Outcome(Some(ch.(num := r.i)), Some((f.db, PInt(r.i))), r)
      else Outcome(None, None, f.value)
    case IntV(n) =>
      if n != r.i then Outcome(Some(ch.(num := r.i)), Some((f.db, PInt(r.i))), r)
      else Outcome(None, None, f.value)
    case BoolV(_) => Outcome(Some(ch.(truth := r.b)), Some((f.db, PBool(r.b))), r)
    case Untracked(_) => Outcome(None, None, f.value)
  }

  /** The outcome for any field of current: nothing happens to a field that is not compared. */
  function FieldOutcome(insert: bool, f: Field, c: seq<Field>): (o: Outcome)
    requires KindsAgree(f, c)
    ensures o.change.Some? ==> o.change.value.key == f.name && o.change.value.name == f.db
    ensures o.change.Some? ==> o.param.Some? && o.param.value.0 == f.db
    ensures o.change.None? && o.param.Some? ==> o.param.value.0 == "" && insert && f.value.ZeroInt?
    ensures !Examined(f, c) ==> o == Outcome(None, None, f.value)
  {
    if Examined(f, c) then Step(insert, f, Lookup(c, f.name).value.value) else Outcome(None, None, f.value)
  }

  predicate Changed(insert: bool, f: Field, c: seq<Field>)
    requires KindsAgree(f, c)
  {
    FieldOutcome(insert, f, c).change.Some?
  }

  /** Current's field after the comparison. */
  function Written(insert: bool, f: Field, c: seq<Field>): Field
    requires KindsAgree(f, c)
  {
    f.(value := FieldOutcome(insert, f, c).value)
  }

  /** Writing back keeps the field's name, tag and kind. */
  lemma WrittenKind(insert: bool, f: Field, c: seq<Field>)
    requires KindsAgree(f, c)
    ensures var w := Written(insert, f, c); w.name == f.name && w.db == f.db && SameKind(w.value, f.value)
  {
  }

  function WrittenAll(insert: bool, fs: seq<Field>, c: seq<Field>): (ws: seq<Field>)
    requires AllKindsAgree(fs, c)
    ensures |ws| == |fs|
    ensures forall i :: 0 <= i < |fs| ==> ws[i] == Written(insert, fs[i], c)
  {
    if fs == [] then [] else [Written(insert, fs[0], c)] + WrittenAll(insert, fs[1..], c)
  }

  /** The accumulated changes, keys and parameter map, before the cleanup pass. */
  datatype Diff = Diff(changes: seq<Change>, keys: seq<string>, params: map<string, Param>)

  function Record(d: Diff, o: Outcome): Diff
  {
    var changes := if o.change.Some? then d.changes + [o.change.value] else d.changes;
    var keys := if o.change.Some? then d.keys + [o.change.value.name] else d.keys;
    var params := if o.param.Some? then d.params[o.param.value.0 := o.param.value.1] else d.params;
    Diff(changes, keys, params)
  }

  /** The reference definition: the loop of GetChanges over the fields `fs`, in order. */
  function DiffFields(insert: bool, fs: seq<Field>, c: seq<Field>): Diff
    requires AllKindsAgree(fs, c)
    decreases |fs|
  {
    if fs == [] then Diff([], [], map[])
    else Record(DiffFields(insert, fs[..|fs| - 1], c), FieldOutcome(insert, fs[|fs| - 1], c))
  }

  /** The cleanup pass: drop the "" key and every value equal to the string "". */
  function Prune(params: map<string, Param>): map<string, Param>
  {
    map k | k in params && k != "" && params[k] != PStr("") :: params[k]
  }

  /** getChanges: compare field `i` of current with requested, write back, and extend the results. */
  method CompareField(insert: bool, m: array<Field>, i: nat, c: seq<Field>, d: Diff) returns (d': Diff)
    requires i < m.Length && KindsAgree(m[i], c)
    modifies m
    ensures m[i] == Written(insert, old(m[i]), c)
    ensures forall j :: 0 <= j < m.Length && j != i ==> m[j] == old(m[j])
    ensures d' == Record(d, FieldOutcome(insert, old(m[i]), c))
  {
    var o := FieldOutcome(insert, m[i], c);
    m[i] := m[i].(value := o.value);
    d' := Record(d, o);
  }

  /** The map loop at the end of GetChanges, deleting entries one key at a time. */
  method PruneParams(params: map<string, Param>) returns (r: map<string, Param>)
    ensures forall k :: k in r <==> k in params && k != "" && params[k] != PStr("")
    ensures forall k :: k in r ==> r[k] == params[k]
  {
    r := params;
    var pending := params.Keys;
    while pending != {}
      invariant pending <= params.Keys
      invariant forall k :: k in r <==> k in params && (k in pending || (k != "" && params[k] != PStr("")))
      invariant forall k :: k in r ==> r[k] == params[k]
      decreases |pending|
    {
      var k :| k in pending;
      if k == "" || r[k] == PStr("") {
        r := r - {k};
      }
      pending := pending - {k};
    }
  }

  /**
   * GetChanges(m, c, typs...). With no mode argument nothing is read or
   * written; otherwise every field of current is compared in order (the mode
   * matters only as "insert" or not) and the parameter map is cleaned up.
   */
  method GetChanges(m: array<Field>, c: seq<Field>, typs: seq<string>)
    returns (changes: seq<Change>, keys: seq<string>, params: map<string, Param>)
    requires |typs| > 0 ==> AllKindsAgree(m[..], c)
    modifies m
    ensures |typs| == 0 ==> changes == [] && keys == [] && params == map[] && m[..] == old(m[..])
    ensures |typs| > 0 ==>
      var d := DiffFields(typs[0] == "insert", old(m[..]), c);
      changes == d.changes && keys == d.keys && params == Prune(d.params) &&
      m[..] == WrittenAll(typs[0] == "insert", old(m[..]), c)
  {
    if |typs| == 0 {
      return [], [], map[];
    }
    var d := CompareFields(typs[0] == "insert", m, c);
    changes, keys := d.changes, d.keys;
    params := PruneParams(d.params);
  }

  /** GetChanges' loop: every field of current, in declaration order, goes through getChanges. */
  method CompareFields(insert: bool, m: array<Field>, c: seq<Field>) returns (d: Diff)
    requires AllKindsAgree(m[..], c)
    modifies m
    ensures d == DiffFields(insert, old(m[..]), c) && m[..] == WrittenAll(insert, old(m[..]), c)
  {
    ghost var fs := m[..];
    d := Diff([], [], map[]);
    for i := 0 to m.Length
      invariant forall j :: 0 <= j < i ==> m[j] == Written(insert, fs[j], c)
      invariant forall j :: i <= j < m.Length ==> m[j] == fs[j]
      invariant d == DiffFields(insert, fs[..i], c)
    {
      DiffFieldsSnoc(insert, fs, i, c);
      d := CompareField(insert, m, i, c, d);
    }
    assert fs[..m.Length] == fs;
    assert m[..] == WrittenAll(insert, fs, c);
  }

  /** One more iteration of the loop extends the reference definition by one field. */
  lemma DiffFieldsSnoc(insert: bool, fs: seq<Field>, i: nat, c: seq<Field>)
    requires AllKindsAgree(fs, c) && i < |fs|
    ensures AllKindsAgree(fs[..i], c) && AllKindsAgree(fs[..i + 1], c)
    ensures DiffFields(insert, fs[..i + 1], c) == Record(DiffFields(insert, fs[..i], c), FieldOutcome(insert, fs[i], c))
  {
    assert fs[..i + 1][..i] == fs[..i];
    assert fs[..i + 1][i] == fs[i];
  }

  // ---------------------------------------------------------------------
  // Properties of the reference definition.
  // ---------------------------------------------------------------------

  /** keys[i] is the column name of changes[i]. */
  lemma {:induction false} KeysNameChanges(insert: bool, fs: seq<Field>, c: seq<Field>)
    requires AllKindsAgree(fs, c)
    ensures var d := DiffFields(insert, fs, c);
      |d.keys| == |d.changes| && forall i :: 0 <= i < |d.keys| ==> d.keys[i] == d.changes[i].name
    decreases |fs|
  {
    if fs != [] {
      KeysNameChanges(insert, fs[..|fs| - 1], c);
    }
  }

  /** The indices of the fields that produce a Change, in declaration order. */
  function ChangedIndices(insert: bool, fs: seq<Field>, c: seq<Field>): (idx: seq<nat>)
    requires AllKindsAgree(fs, c)
    ensures forall k :: 0 <= k < |idx| ==> idx[k] < |fs| && Changed(insert, fs[idx[k]], c)
    decreases |fs|
  {
    if fs == [] then []
    else
      var prev := ChangedIndices(insert, fs[..|fs| - 1], c);
      if Changed(insert, fs[|fs| - 1], c) then prev + [|fs| - 1] else prev
  }

  lemma {:induction false} ChangedIndicesIncrease(insert: bool, fs: seq<Field>, c: seq<Field>)
    requires AllKindsAgree(fs, c)
    ensures var idx := ChangedIndices(insert, fs, c);
      |idx| == |DiffFields(insert, fs, c).changes| && forall k, l :: 0 <= k < l < |idx| ==> idx[k] < idx[l]
    decreases |fs|
  {
    if fs != [] {
      var pre := fs[..|fs| - 1];
      assert forall i :: 0 <= i < |pre| ==> pre[i] == fs[i];
      ChangedIndicesIncrease(insert, pre, c);
      assert |ChangedIndices(insert, pre, c)| == |DiffFields(insert, pre, c).changes|;
    }
  }

  lemma {:induction false} ChangedIndicesComplete(insert: bool, fs: seq<Field>, c: seq<Field>)
    requires AllKindsAgree(fs, c)
    ensures forall i :: 0 <= i < |fs| ==> (Changed(insert, fs[i], c) <==> i in ChangedIndices(insert, fs, c))
    decreases |fs|
  {
    if fs != [] {
      var n := |fs| - 1;
      var pre := fs[..n];
      assert forall i :: 0 <= i < n ==> pre[i] == fs[i];
      ChangedIndicesComplete(insert, pre, c);
      assert forall i :: 0 <= i < n ==> (Changed(insert, pre[i], c) <==> i in ChangedIndices(insert, pre, c));
    }
  }

  lemma {:induction false} ChangesFromIndices(insert: bool, fs: seq<Field>, c: seq<Field>)
    requires AllKindsAgree(fs, c)
    ensures var d := DiffFields(insert, fs, c);
      var idx := ChangedIndices(insert, fs, c);
      |idx| == |d.changes| &&
      forall k :: 0 <= k < |idx| ==> d.changes[k] == FieldOutcome(insert, fs[idx[k]], c).change.value
    decreases |fs|
  {
    if fs != [] {
      var n := |fs| - 1;
      var pre := fs[..n];
      assert forall i :: 0 <= i < n ==> pre[i] == fs[i];
      ChangesFromIndices(insert, pre, c);
      var idx0 := ChangedIndices(insert, pre, c);
      var ch0 := DiffFields(insert, pre, c).changes;
      var o := FieldOutcome(insert, fs[n], c);
      var ch := DiffFields(insert, fs, c).changes;
      var idx := ChangedIndices(insert, fs, c);
      assert ch == if o.change.Some? then ch0 + [o.change.value] else ch0;
      assert idx == if o.change.Some? then idx0 + [n] else idx0;
      forall k | 0 <= k < |idx|
        ensures ch[k] == FieldOutcome(insert, fs[idx[k]], c).change.value
      {
        if k < |idx0| {
          assert idx[k] == idx0[k] && ch[k] == ch0[k];
          assert pre[idx0[k]] == fs[idx0[k]];
        }
      }
    }
  }

  /**
   * The changes follow the declaration order of current's fields: changes[k]
   * comes from the k-th changed field, the changed fields' indices increase,
   * and every field that counts as changed appears.
   */
  lemma ChangesFollowFields(insert: bool, fs: seq<Field>, c: seq<Field>)
    requires AllKindsAgree(fs, c)
    ensures var d := DiffFields(insert, fs, c);
      var idx := ChangedIndices(insert, fs, c);
      |idx| == |d.changes| &&
      (forall k, l :: 0 <= k < l < |idx| ==> idx[k] < idx[l]) &&
      (forall k :: 0 <= k < |idx| ==> d.changes[k] == FieldOutcome(insert, fs[idx[k]], c).change.value) &&
      (forall i :: 0 <= i < |fs| ==> (Changed(insert, fs[i], c) <==> i in idx))
  {
    ChangedIndicesIncrease(insert, fs, c);
    ChangedIndicesComplete(insert, fs, c);
    ChangesFromIndices(insert, fs, c);
  }

  /** Every key written into the map is a changed column's name or "", and every changed column is a key. */
  lemma {:induction false} ParamsNameColumns(insert: bool, fs: seq<Field>, c: seq<Field>)
    requires AllKindsAgree(fs, c)
    ensures var d := DiffFields(insert, fs, c);
      (forall k :: k in d.params ==> k == "" || k in d.keys) && (forall k :: k in d.keys ==> k in d.params)
    decreases |fs|
  {
    if fs != [] {
      var n := |fs| - 1;
      var pre := fs[..n];
      assert forall i :: 0 <= i < n ==> pre[i] == fs[i];
      ParamsNameColumns(insert, pre, c);
      assert forall k :: k in DiffFields(insert, pre, c).keys ==> k in DiffFields(insert, pre, c).params;
      assert forall k :: k in DiffFields(insert, pre, c).params ==> k == "" || k in DiffFields(insert, pre, c).keys;
      var d0 := DiffFields(insert, pre, c);
      var o := FieldOutcome(insert, fs[n], c);
      var d := DiffFields(insert, fs, c);
      assert d == Record(d0, o);
      forall k | k in d.params ensures k == "" || k in d.keys {
        if k !in d0.params || (o.param.Some? && k == o.param.value.0) {
          assert o.param.Some? && k == o.param.value.0;
          if o.change.Some? {
            assert d.keys[|d.keys| - 1] == k;
          }
        } else if k != "" {
          assert k in d0.keys;
          assert d0.keys <= d.keys;
        }
      }
      forall k | k in d.keys ensures k in d.params {
        if k !in d0.keys {
          assert o.change.Some? && k == o.change.value.name;
        } else {
          assert k in d0.params;
        }
      }
    }
  }

  /**
   * The fields that write the parameter key "": a changed field whose own
   * `db` tag is empty (the Change takes current's tag), and, in insert mode,
   * an unchanged zero.Int, whose store uses the still-empty change.Name.
   */
  predicate WritesEmptyKey(insert: bool, f: Field, c: seq<Field>)
    requires KindsAgree(f, c)
  {
    Examined(f, c) &&
    ((Changed(insert, f, c) && f.db == "") || (insert && f.value.ZeroInt? && !Changed(insert, f, c)))
  }

  /** "" is a key of the parameter map exactly when some field writes it. */
  lemma {:induction false} EmptyKeyWriters(insert: bool, fs: seq<Field>, c: seq<Field>)
    requires AllKindsAgree(fs, c)
    ensures "" in DiffFields(insert, fs, c).params <==> exists i :: 0 <= i < |fs| && WritesEmptyKey(insert, fs[i], c)
    decreases |fs|
  {
    if fs != [] {
      var n := |fs| - 1;
      var pre := fs[..n];
      assert forall i :: 0 <= i < n ==> pre[i] == fs[i];
      EmptyKeyWriters(insert, pre, c);
      OutcomeEmptyKey(insert, fs[n], c);
      assert DiffFields(insert, fs, c) == Record(DiffFields(insert, pre, c), FieldOutcome(insert, fs[n], c));
      ExistsSnoc(insert, fs, pre, c);
    }
  }

  /** One field's outcome writes "" exactly when WritesEmptyKey holds of it. */
  lemma OutcomeEmptyKey(insert: bool, f: Field, c: seq<Field>)
    requires KindsAgree(f, c)
    ensures var o := FieldOutcome(insert, f, c);
      (o.param.Some? && o.param.value.0 == "") <==> WritesEmptyKey(insert, f, c)
  {
  }

  /** A writer among all the fields is one among the first ones or the last field. */
  lemma ExistsSnoc(insert: bool, fs: seq<Field>, pre: seq<Field>, c: seq<Field>)
    requires AllKindsAgree(fs, c) && fs != [] && pre == fs[..|fs| - 1]
    ensures AllKindsAgree(pre, c)
    ensures (exists i :: 0 <= i < |fs| && WritesEmptyKey(insert, fs[i], c)) <==>
      (exists i :: 0 <= i < |pre| && WritesEmptyKey(insert, pre[i], c)) || WritesEmptyKey(insert, fs[|fs| - 1], c)
  {
    assert forall i :: 0 <= i < |pre| ==> pre[i] == fs[i];
    if exists i :: 0 <= i < |fs| && WritesEmptyKey(insert, fs[i], c) {
      var i :| 0 <= i < |fs| && WritesEmptyKey(insert, fs[i], c);
      if i < |pre| {
        assert WritesEmptyKey(insert, pre[i], c);
      }
    }
  }

  /**
   * In update mode with every field of current tagged, the "" key never
   * appears: it only comes from an untagged changed field or from insert mode.
   */
  lemma EmptyKeyOnlyFromInsert(fs: seq<Field>, c: seq<Field>)
    requires AllKindsAgree(fs, c)
    requires forall i :: 0 <= i < |fs| ==> fs[i].db != ""
    ensures "" !in DiffFields(false, fs, c).params
  {
    EmptyKeyWriters(false, fs, c);
  }

  /** Fields GetChanges does not compare are left alone and produce nothing. */
  lemma UnexaminedUntouched(insert: bool, f: Field, c: seq<Field>)
    requires !Examined(f, c)
    ensures !Changed(insert, f, c) && Written(insert, f, c) == f && FieldOutcome(insert, f, c).param.None?
  {
  }

  /** DBInterface and Id are never compared; ID (a different name) is. */
  lemma IdExcludedButNotID(v: Value, w: Value, col: string, c: seq<Field>)
    requires col != ""
    ensures !Examined(Field("Id", col, v), c) && !Examined(Field("DBInterface", col, v), c)
    ensures Examined(Field("ID", col, v), [Field("ID", col, w)] + c)
  {
  }

  /**
   * Plain string, int and int64 fields change exactly when the values differ,
   * and current then holds requested's value; otherwise current is unchanged.
   */
  lemma PlainRule(insert: bool, f: Field, c: seq<Field>)
    requires KindsAgree(f, c) && Examined(f, c)
    requires f.value.StrV? || f.value.IntV? || f.value.Int64V?
    ensures var r := Lookup(c, f.name).value.value;
      (Changed(insert, f, c) <==> f.value != r) &&
      Written(insert, f, c).value == r
  {
  }

  /** zero.String changes when the strings differ and requested's is non-empty; the whole wrapper is copied. */
  lemma ZeroStringRule(insert: bool, f: Field, c: seq<Field>)
    requires KindsAgree(f, c) && Examined(f, c) && f.value.ZeroString?
    ensures var r := Lookup(c, f.name).value.value;
      (Changed(insert, f, c) <==> f.value.str != r.str && r.str != "") &&
      Written(insert, f, c).value == (if Changed(insert, f, c) then r else f.value)
  {
  }

  /**
   * zero.Int changes when the numbers differ and requested's is non-zero, and
   * then only Int64 is copied (Valid is kept). Otherwise, in insert mode, the
   * whole wrapper is copied and requested's number is stored under the key "".
   */
  lemma ZeroIntRule(insert: bool, f: Field, c: seq<Field>)
    requires KindsAgree(f, c) && Examined(f, c) && f.value.ZeroInt?
    ensures var r := Lookup(c, f.name).value.value;
      var o := FieldOutcome(insert, f, c);
      (Changed(insert, f, c) <==> f.value.int64 != r.int64 && r.int64 != 0) &&
      (Changed(insert, f, c) ==> o.value == ZeroInt(r.int64, f.value.valid) && o.param == Some((f.db, PInt(r.int64)))) &&
      (!Changed(insert, f, c) && insert ==> o.value == r && o.param == Some(("", PInt(r.int64)))) &&
      (!Changed(insert, f, c) && !insert ==> o.value == f.value && o.param.None?)
  {
  }

  /**
   * bool, zero.Bool and NullDecimal always produce a Change carrying
   * requested's value; zero.Bool is not written back, the others are.
   */
  lemma AlwaysChangeRule(insert: bool, f: Field, c: seq<Field>)
    requires KindsAgree(f, c) && Examined(f, c)
    requires f.value.BoolV? || f.value.ZeroBool? || f.value.NullDecimal?
    ensures var r := Lookup(c, f.name).value.value;
      var ch := FieldOutcome(insert, f, c).change;
      ch.Some? && ch.value.key == f.name && ch.value.name == f.db &&
      (f.value.BoolV? ==> ch.value.truth == r.b && Written(insert, f, c).value == r) &&
      (f.value.ZeroBool? ==> ch.value.truth == r.flag && Written(insert, f, c) == f) &&
      (f.value.NullDecimal? ==> ch.value.decimal == r.decimal && Written(insert, f, c).value == r)
  {
  }

  predicate AlwaysChanges(v: Value)
  {
    v.BoolV? || v.ZeroBool? || v.NullDecimal?
  }

  predicate UniqueNames(fs: seq<Field>)
  {
    forall i, j :: 0 <= i < j < |fs| ==> fs[i].name != fs[j].name
  }

  lemma {:induction false} LookupSelf(fs: seq<Field>, i: nat)
    requires UniqueNames(fs) && i < |fs|
    ensures Lookup(fs, fs[i].name) == Some(fs[i])
    decreases i
  {
    if i > 0 {
      assert fs[1..][i - 1] == fs[i];
      LookupSelf(fs[1..], i - 1);
    }
  }

  /**
   * Comparing a record with an identical copy in update mode yields no
   * changes exactly when no compared field is a bool, zero.Bool or NullDecimal.
   */
  lemma {:induction false} IdenticalRecords(fs: seq<Field>, c: seq<Field>)
    requires UniqueNames(c) && AllKindsAgree(fs, c)
    requires forall i :: 0 <= i < |fs| ==> fs[i] in c
    ensures DiffFields(false, fs, c).changes == [] <==>
      forall i :: 0 <= i < |fs| && Examined(fs[i], c) ==> !AlwaysChanges(fs[i].value)
    decreases |fs|
  {
    if fs != [] {
      var pre := fs[..|fs| - 1];
      var f := fs[|fs| - 1];
      IdenticalRecords(pre, c);
      assert forall i :: 0 <= i < |pre| ==> pre[i] == fs[i];
      if Examined(f, c) {
        var j :| 0 <= j < |c| && c[j] == f;
        LookupSelf(c, j);
      }
    }
  }

  /**
   * After the write-back, a second comparison against the same requested
   * record (in update mode) finds changes only in fields of the always-changing kinds.
   */
  lemma {:induction false} SecondPassQuiet(insert: bool, fs: seq<Field>, c: seq<Field>)
    requires AllKindsAgree(fs, c)
    ensures AllKindsAgree(WrittenAll(insert, fs, c), c)
    ensures var ws := WrittenAll(insert, fs, c);
      forall i :: 0 <= i < |ws| && Changed(false, ws[i], c) ==> AlwaysChanges(ws[i].value)
  {
    var ws := WrittenAll(insert, fs, c);
    forall i | 0 <= i < |ws|
      ensures KindsAgree(ws[i], c)
      ensures Changed(false, ws[i], c) ==> AlwaysChanges(ws[i].value)
    {
      assert ws[i] == Written(insert, fs[i], c);
      assert ws[i].name == fs[i].name;
    }
  }

  /**
   * A string field cleared to "" is listed in keys, but the cleanup pass
   * drops its parameter, provided no other field writes the same column.
   */
  lemma {:induction false} KeyWithoutParam(insert: bool, fs: seq<Field>, c: seq<Field>, i: nat)
    requires AllKindsAgree(fs, c) && i < |fs|
    requires Examined(fs[i], c) && fs[i].value.StrV? && fs[i].value != StrV("")
    requires Lookup(c, fs[i].name).value.value == StrV("")
    requires forall j :: 0 <= j < |fs| && j != i ==> fs[j].db != fs[i].db
    ensures var d := DiffFields(insert, fs, c);
      fs[i].db in d.keys && fs[i].db !in Prune(d.params)
    ensures fs[i].db != "" ==> fs[i].db in DiffFields(insert, fs, c).params && DiffFields(insert, fs, c).params[fs[i].db] == PStr("")
    decreases |fs|
  {
    var n := |fs| - 1;
    var pre := fs[..n];
    assert forall j :: 0 <= j < n ==> pre[j] == fs[j];
    var d0 := DiffFields(insert, pre, c);
    var o := FieldOutcome(insert, fs[n], c);
    assert DiffFields(insert, fs, c) == Record(d0, o);
    if i < n {
      KeyWithoutParam(insert, pre, c, i);
      assert fs[i] == pre[i];
      assert o.param.Some? ==> o.param.value.0 == fs[n].db || o.param.value.0 == "";
    } else {
      assert o.change == Some(NewChange(fs[i]).(str := ""));
      assert o.param == Some((fs[i].db, PStr("")));
    }
  }
}
