/**
 * The dynamic UPDATE builder that updateProduct and updateCategory share:
 * drop the undefined keys of the request body, turn each remaining camelCase
 * key into a snake_case column, number the placeholders $1..$n in key order
 * and put the row id at $n+1.
 */
module SqlUpdate {
  import opened Wrappers
  import opened Json
  import opened Text

  /** A key of a request body with its value; None is `undefined`. The fields are
      in the order `Object.keys` lists them; for the non-numeric keys these bodies
      carry, that is insertion order. */
  datatype Field = Field(key: string, value: Option<JsonValue>)

  /** "<column> = $<placeholder>" in the SET list. */
  datatype Assignment = Assignment(column: string, placeholder: nat)

  /** A bound parameter: a field's value, or the id of the row to update. */
  datatype Param = FieldParam(value: JsonValue) | IdParam(id: nat)

  datatype UpdateStatement = UpdateStatement(assignments: seq<Assignment>, params: seq<Param>, idPlaceholder: nat)

  /** The keys of an object are distinct. */
  predicate DistinctKeys(fields: seq<Field>)
  {
    forall i, j :: 0 <= i < j < |fields| ==> fields[i].key != fields[j].key
  }

  /** The fields whose value is not undefined, in their order. */
  function Defined(fields: seq<Field>): (r: seq<Field>)
    ensures |r| <= |fields|
    ensures forall i :: 0 <= i < |r| ==> r[i].value.Some? && r[i] in fields
    ensures forall i :: 0 <= i < |fields| && fields[i].value.Some? ==> fields[i] in r
  {
    if fields == [] then []
    else
      var last := fields[|fields| - 1];
      Defined(fields[..|fields| - 1]) + (if last.value.Some? then [last] else [])
  }

  /** `Object.keys(updateData).forEach(key => { if (updateData[key] === undefined) delete updateData[key]; })` */
  method DropUndefined(body: seq<Field>) returns (defined: seq<Field>)
    ensures defined == Defined(body)
  {
    defined := [];
    var i := 0;
    while i < |body|
      invariant 0 <= i <= |body|
      invariant defined == Defined(body[..i])
    {
      assert body[..i + 1][..i] == body[..i];
      if body[i].value.Some? {
        defined := defined + [body[i]];
      }
      i := i + 1;
    }
    assert body[..i] == body;
  }

  /** `key.replace(/([A-Z])/g, '_$1').toLowerCase()`: an '_' before every ASCII
      capital, then every character lower-cased (lower-casing is per character,
      so the two steps can be taken letter by letter). */
  function SnakeCase(key: string): (column: string)
    ensures forall i :: 0 <= i < |column| ==> !IsAsciiUpper(column[i])
    ensures |column| >= |key|
  {
    if key == [] then []
    else (if IsAsciiUpper(key[0]) then ['_', LowerChar(key[0])] else [LowerChar(key[0])]) + SnakeCase(key[1..])
  }

  function UpperAscii(c: char): char
  {
    if IsAsciiLower(c) then (c as int - 32) as char else c
  }

  /** The reading back of a column name: "_x" becomes "X". */
  function CamelCase(column: string): string
  {
    if column == [] then []
    else if column[0] == '_' && |column| >= 2 then [UpperAscii(column[1])] + CamelCase(column[2..])
    else [column[0]] + CamelCase(column[1..])
  }

  predicate IsAlphanumericKey(key: string)
  {
    forall i :: 0 <= i < |key| ==> IsAsciiLower(key[i]) || IsAsciiUpper(key[i]) || IsDigit(key[i])
  }

  /** On ASCII letters and digits, the column name gives the key back. */
  lemma {:induction false} SnakeCaseRoundTrip(key: string)
    requires IsAlphanumericKey(key)
    ensures CamelCase(SnakeCase(key)) == key
  {
    if key != [] {
      var rest := SnakeCase(key[1..]);
      assert IsAlphanumericKey(key[1..]);
      SnakeCaseRoundTrip(key[1..]);
      if IsAsciiUpper(key[0]) {
        assert (['_', LowerChar(key[0])] + rest)[2..] == rest;
      } else {
        assert ([LowerChar(key[0])] + rest)[1..] == rest;
      }
    }
  }

  /** So two different alphanumeric keys never name the same column. */
  lemma SnakeCaseInjective(a: string, b: string)
    requires IsAlphanumericKey(a) && IsAlphanumericKey(b) && a != b
    ensures SnakeCase(a) != SnakeCase(b)
  {
    SnakeCaseRoundTrip(a);
    SnakeCaseRoundTrip(b);
  }

  /** The statement binds field i to column SnakeCase(key i) at $(i+1), and the id at $(n+1). */
  predicate Binds(stmt: UpdateStatement, fields: seq<Field>, id: nat)
  {
    && |stmt.assignments| == |fields|
    && |stmt.params| == |fields| + 1
    && stmt.idPlaceholder == |fields| + 1
    && stmt.params[|fields|] == IdParam(id)
    && (forall i :: 0 <= i < |fields| ==>
          && stmt.assignments[i] == Assignment(SnakeCase(fields[i].key), i + 1)
          && fields[i].value.Some?
          && stmt.params[i] == FieldParam(fields[i].value.value))
  }

  /** Every placeholder of the statement refers to the parameter holding the value
      of its own field. */
  lemma PlaceholdersMatch(stmt: UpdateStatement, fields: seq<Field>, id: nat)
    requires Binds(stmt, fields, id)
    ensures forall i :: 0 <= i < |stmt.assignments| ==>
              1 <= stmt.assignments[i].placeholder <= |stmt.params|
              && stmt.params[stmt.assignments[i].placeholder - 1] == FieldParam(fields[i].value.value)
    ensures stmt.params[stmt.idPlaceholder - 1] == IdParam(id)
  {
  }

  /** The forEach that pushes "<column> = $<paramCount>" and the value, then the id. */
  method BuildUpdate(fields: seq<Field>, id: nat) returns (stmt: UpdateStatement)
    requires forall i :: 0 <= i < |fields| ==> fields[i].value.Some?
    ensures Binds(stmt, fields, id)
  {
    var assignments: seq<Assignment> := [];
    var params: seq<Param> := [];
    var paramCount := 1;
    var i := 0;
    while i < |fields|
      invariant 0 <= i <= |fields|
      invariant paramCount == i + 1
      invariant |assignments| == i && |params| == i
      invariant forall k :: 0 <= k < i ==>
                  assignments[k] == Assignment(SnakeCase(fields[k].key), k + 1)
                  && params[k] == FieldParam(fields[k].value.value)
    {
      var column := SnakeCase(fields[i].key);
      assignments := assignments + [Assignment(column, paramCount)];
      params := params + [FieldParam(fields[i].value.value)];
      paramCount := paramCount + 1;
      i := i + 1;
    }
    params := params + [IdParam(id)];
    stmt := UpdateStatement(assignments, params, paramCount);
  }

  /** The position of `key` among the fields, |fields| when it is absent. */
  function IndexOf(fields: seq<Field>, key: string): (i: nat)
    ensures i <= |fields|
    ensures i < |fields| ==> fields[i].key == key
    ensures forall j :: 0 <= j < i ==> fields[j].key != key
  {
    if fields == [] then 0
    else if fields[0].key == key then 0
    else 1 + IndexOf(fields[1..], key)
  }

  /** `obj[key]`: the value of `key`, None when the object has no such key. */
  function Get(fields: seq<Field>, key: string): Option<Option<JsonValue>>
  {
    var i := IndexOf(fields, key);
    if i < |fields| then Some(fields[i].value) else None
  }

  /** `obj[key] = value`: an existing key keeps its place, a new one goes last. */
  function Set(fields: seq<Field>, key: string, value: JsonValue): (r: seq<Field>)
    ensures |r| == |fields| || r == fields + [Field(key, Some(value))]
    ensures Get(r, key) == Some(Some(value))
    ensures forall i :: 0 <= i < |r| ==> r[i].key == key || (i < |fields| && r[i] == fields[i])
    ensures forall i :: 0 <= i < |fields| && fields[i].key != key ==> r[i] == fields[i]
    ensures DistinctKeys(fields) ==> DistinctKeys(r)
  {
    var i := IndexOf(fields, key);
    var r := if i < |fields| then fields[i := Field(key, Some(value))] else fields + [Field(key, Some(value))];
    assert IndexOf(r, key) == i by {
      assert forall j :: 0 <= j < i ==> r[j].key != key;
      assert r[i].key == key;
    }
    r
  }
}
