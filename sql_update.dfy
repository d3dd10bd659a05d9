/**
 * The partial-update statement shared by adminModel.updateUser and faqModel.updateQuestion:
 * the keys of the fields object whose value is not undefined, a SET clause with one
 * `key = ?` per key joined by ", ", and the bound values in key order followed by the row id.
 */
module SqlUpdate {
  import opened Wrappers
  import opened Text
  import opened JsValues

  /** `Object.keys(fields).filter(key => fields[key] !== undefined)`, over the keys ks. */
  function DefinedKeys(fields: Object, ks: seq<string>): (r: seq<string>)
    ensures forall k | 0 <= k < |r| :: r[k] in ks && Prop(fields, r[k]) != Undefined
    ensures forall k | 0 <= k < |ks| :: Prop(fields, ks[k]) != Undefined ==> ks[k] in r
    ensures |r| <= |ks|
  {
    if ks == [] then []
    else (if Prop(fields, ks[0]) != Undefined then [ks[0]] else []) + DefinedKeys(fields, ks[1..])
  }

  /**
   * DefinedKeys is the filter of ks by definedness: a single key is kept exactly when its value
   * is defined, and the keys of a + b are those of a followed by those of b, so the kept keys
   * keep the order of ks.
   */
  lemma {:induction false} DefinedKeysFilter(fields: Object, a: seq<string>, b: seq<string>, key: string)
    ensures DefinedKeys(fields, [key]) == if Prop(fields, key) != Undefined then [key] else []
    ensures DefinedKeys(fields, a + b) == DefinedKeys(fields, a) + DefinedKeys(fields, b)
  {
    assert [key][1..] == [];
    if a == [] {
      assert a + b == b;
    } else {
      assert (a + b)[0] == a[0];
      assert (a + b)[1..] == a[1..] + b;
      DefinedKeysFilter(fields, a[1..], b, key);
    }
  }

  function Assignments(keys: seq<string>): (r: seq<string>)
    ensures |r| == |keys|
  {
    seq(|keys|, k requires 0 <= k < |keys| => keys[k] + " = ?")
  }

  /** `keys.map(key => `${key} = ?`).join(', ')`. */
  function SetClause(keys: seq<string>): string {
    Join(Assignments(keys), ", ")
  }

  /** `keys.map(key => fields[key])` followed by the id. */
  function BoundValues(fields: Object, keys: seq<string>, id: JsValue): (r: seq<JsValue>)
  {
    seq(|keys|, k requires 0 <= k < |keys| => Prop(fields, keys[k])) + [id]
  }

  /** The statement for these fields, or None when there is nothing to update and no query is issued. */
  function BuildUpdate(fields: Object, id: JsValue): (r: Option<(string, seq<JsValue>)>)
  {
    var keys := DefinedKeys(fields, Keys(fields));
    if |keys| == 0 then None else Some((SetClause(keys), BoundValues(fields, keys, id)))
  }

  lemma CountJoin(parts: seq<string>, sep: string, c: char)
    requires c !in sep
    ensures Count(Join(parts, sep), c) == SumCounts(parts, c)
    decreases |parts|
  {
    if |parts| > 1 {
      CountJoin(parts[1..], sep, c);
      CountAppend(parts[0] + sep, Join(parts[1..], sep), c);
      CountAppend(parts[0], sep, c);
      CountNone(sep, c);
    }
  }

  function SumCounts(parts: seq<string>, c: char): nat {
    if parts == [] then 0 else Count(parts[0], c) + SumCounts(parts[1..], c)
  }

  lemma {:induction false} CountNone(s: string, c: char)
    requires c !in s
    ensures Count(s, c) == 0
  {
    if s != [] { CountNone(s[1..], c); }
  }

  lemma {:induction false} SumCountsOfAssignments(keys: seq<string>)
    requires forall k | 0 <= k < |keys| :: '?' !in keys[k]
    ensures SumCounts(Assignments(keys), '?') == |keys|
  {
    if keys != [] {
      assert Assignments(keys)[1..] == Assignments(keys[1..]);
      CountAppend(keys[0], " = ?", '?');
      CountNone(keys[0], '?');
      SumCountsOfAssignments(keys[1..]);
    }
  }

  /**
   * The clause has one placeholder per defined key, and with the WHERE id placeholder the
   * statement has exactly as many placeholders as bound values.
   */
  lemma PlaceholdersMatchValues(fields: Object, id: JsValue)
    requires forall k | 0 <= k < |fields| :: '?' !in fields[k].0
    requires BuildUpdate(fields, id).Some?
    ensures var (clause, values) := BuildUpdate(fields, id).value;
      Count(clause, '?') + 1 == |values| && |values| == |DefinedKeys(fields, Keys(fields))| + 1
  {
    var keys := DefinedKeys(fields, Keys(fields));
    forall k | 0 <= k < |keys| ensures '?' !in keys[k] {
      assert keys[k] in Keys(fields);
    }
    CountJoin(Assignments(keys), ", ", '?');
    SumCountsOfAssignments(keys);
  }

  /** The k-th bound value belongs to the k-th key of the clause, and the last one is the id. */
  lemma ValuesFollowKeys(fields: Object, id: JsValue)
    requires BuildUpdate(fields, id).Some?
    ensures var keys := DefinedKeys(fields, Keys(fields));
      var (clause, values) := BuildUpdate(fields, id).value;
      && clause == Join(Assignments(keys), ", ")
      && values[|values| - 1] == id
      && forall k | 0 <= k < |keys| :: values[k] == Prop(fields, keys[k]) && values[k] != Undefined
  {
  }

  /** Exactly the keys whose value is not undefined are set; no key is dropped or invented. */
  lemma DefinedKeysExact(fields: Object)
    ensures forall key :: key in DefinedKeys(fields, Keys(fields)) <==> key in Keys(fields) && Prop(fields, key) != Undefined
  {
    var ks := Keys(fields);
    forall key | key in ks && Prop(fields, key) != Undefined ensures key in DefinedKeys(fields, ks) {
      var k :| 0 <= k < |ks| && ks[k] == key;
    }
  }

  /** Nothing is issued exactly when every field is undefined. */
  lemma NoQueryWhenAllUndefined(fields: Object, id: JsValue)
    ensures BuildUpdate(fields, id).None? <==> forall k | 0 <= k < |fields| :: Prop(fields, fields[k].0) == Undefined
  {
    DefinedKeysExact(fields);
    if BuildUpdate(fields, id).None? {
      forall k | 0 <= k < |fields| ensures Prop(fields, fields[k].0) == Undefined {
        assert fields[k].0 == Keys(fields)[k];
      }
    } else {
      var key := DefinedKeys(fields, Keys(fields))[0];
      assert key in Keys(fields);
    }
  }

  /** The row after `SET k1 = ?, k2 = ?, ...` with the bound values, assigned left to right. */
  function ApplyAssignments(row: map<string, JsValue>, keys: seq<string>, values: seq<JsValue>)
    : map<string, JsValue>
    requires |values| >= |keys|
    decreases |keys|
  {
    if keys == [] then row else ApplyAssignments(row[keys[0] := values[0]], keys[1..], values[1..])
  }

  lemma {:induction false} ApplyAssignmentsSets(row: map<string, JsValue>, keys: seq<string>,
                                                values: seq<JsValue>, fields: Object)
    requires |values| >= |keys|
    requires forall k | 0 <= k < |keys| :: values[k] == Prop(fields, keys[k])
    decreases |keys|
    ensures var r := ApplyAssignments(row, keys, values);
      && (forall c | c in keys :: c in r && r[c] == Prop(fields, c))
      && (forall c | c !in keys :: (c in r <==> c in row) && (c in row ==> r[c] == row[c]))
  {
    if keys != [] {
      ApplyAssignmentsSets(row[keys[0] := values[0]], keys[1..], values[1..], fields);
    }
  }

  /** The UPDATE gives every defined field its new value and leaves every other column as it was. */
  lemma UpdatedRow(row: map<string, JsValue>, fields: Object, id: JsValue)
    requires BuildUpdate(fields, id).Some?
    ensures var keys := DefinedKeys(fields, Keys(fields));
      var r := ApplyAssignments(row, keys, BuildUpdate(fields, id).value.1);
      && (forall c | c in Keys(fields) && Prop(fields, c) != Undefined :: c in r && r[c] == Prop(fields, c))
      && (forall c | c !in Keys(fields) || Prop(fields, c) == Undefined ::
            (c in r <==> c in row) && (c in row ==> r[c] == row[c]))
  {
    var keys := DefinedKeys(fields, Keys(fields));
    DefinedKeysExact(fields);
    ApplyAssignmentsSets(row, keys, BuildUpdate(fields, id).value.1, fields);
  }
}
