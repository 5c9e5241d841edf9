/** The entities every store of the repository exchanges: sessions, key tables, patches and snapshots. */
module AuthTypes {

  datatype Option<+T> = None | Some(value: T)

  /** The errors a store call ends with; `VersionMismatch` is the optimistic-locking conflict. */
  datatype StoreError = NotConnected | StorageFailure | VersionMismatch(expected: int, actual: int)

  datatype Result<+T> = Ok(value: T) | Err(error: StoreError)

  type SessionId = string

  /** A stored key: `Null` is a JSON null, which the Redis merge reads as a deletion. */
  datatype Value = Null | Data(payload: string)

  /** Signal keys: key type, then id. The same shape serves patches and stored tables. */
  type KeyTable = map<string, map<string, Value>>

  /** A partial snapshot. */
  datatype AuthPatch = AuthPatch(creds: Option<string>, keys: Option<KeyTable>, appState: Option<string>)

  datatype AuthSnapshot = AuthSnapshot(creds: string, keys: KeyTable, appState: Option<string>)

  datatype Versioned = Versioned(data: AuthSnapshot, version: int)

  function GetOr<T>(o: Option<T>, default: T): T {
    if o.Some? then o.value else default
  }

  /** `patch.field ?? current.field`. */
  function OrElse<T>(o: Option<T>, other: Option<T>): Option<T> {
    if o.Some? then o else other
  }

  /** The version a set call writes: expectedVersion defaults to 0. */
  function NextVersion(expected: Option<int>): int {
    GetOr(expected, 0) + 1
  }

  /** The patch that carries a whole snapshot. */
  function FullPatch(s: AuthSnapshot): AuthPatch {
    AuthPatch(Some(s.creds), Some(s.keys), s.appState)
  }

  /** The ids stored under a key type. */
  function TypeOf(table: KeyTable, t: string): map<string, Value> {
    if t in table then table[t] else map[]
  }

  function Lookup(table: KeyTable, t: string, id: string): Option<Value> {
    if t in table && id in table[t] then Some(table[t][id]) else None
  }

  predicate NoNulls(table: KeyTable) {
    forall t, id :: t in table && id in table[t] ==> table[t][id] != Null
  }

  /** One key type after an incremental merge: null removes the id, anything else overwrites it. */
  function MergeIds(current: map<string, Value>, patch: map<string, Value>): map<string, Value> {
    map id | id in current.Keys + patch.Keys && (id in patch ==> patch[id] != Null)
      :: if id in patch then patch[id] else current[id]
  }

  /** The incremental merge both the Redis store and the hybrid hook perform. */
  function MergeKeys(current: KeyTable, patch: KeyTable): KeyTable {
    map t | t in current.Keys + patch.Keys
      :: if t in patch then MergeIds(TypeOf(current, t), patch[t]) else current[t]
  }

  /** What the merge means id by id: a named id takes the patch's value (null meaning absent), every
      other id keeps its own. */
  lemma MergeLooksUp(current: KeyTable, patch: KeyTable, t: string, id: string)
    ensures Lookup(MergeKeys(current, patch), t, id)
         == match Lookup(patch, t, id)
            case None => Lookup(current, t, id)
            case Some(v) => if v == Null then None else Some(v)
  {
  }

  lemma MergeIdsAbsorbs(current: map<string, Value>, data: map<string, Value>)
    requires Null !in data.Values && Null !in current.Values
    ensures Null !in MergeIds(current, data).Values
    ensures MergeIds(current, MergeIds(current, data)) == MergeIds(current, data)
    ensures MergeIds(map[], current) == current
    ensures MergeIds(current, current) == current
  {
  }

  /** A table merged into itself or into the empty table is unchanged. */
  lemma MergeIdempotent(current: KeyTable)
    requires NoNulls(current)
    ensures MergeKeys(current, current) == current
    ensures MergeKeys(map[], current) == current
  {
    forall t | t in current
      ensures MergeIds(current[t], current[t]) == current[t] && MergeIds(map[], current[t]) == current[t]
    {
      MergeIdsAbsorbs(current[t], map[]);
    }
  }

  lemma MergeKeepsNoNulls(current: KeyTable, patch: KeyTable)
    requires NoNulls(current)
    ensures NoNulls(MergeKeys(current, patch))
  {
  }

  /** The part of a map whose keys have been visited. */
  function Only<T>(m: map<string, T>, visited: set<string>): map<string, T> {
    map k | k in m && k in visited :: m[k]
  }

  lemma MergeIdsStep(current: map<string, Value>, patch: map<string, Value>, visited: set<string>, id: string)
    requires id in patch
    ensures MergeIds(current, Only(patch, visited + {id}))
         == var before := MergeIds(current, Only(patch, visited));
            if patch[id] == Null then before - {id} else before[id := patch[id]]
  {
  }

  lemma MergeKeysStep(current: KeyTable, patch: KeyTable, visited: set<string>, t: string)
    requires t in patch && t !in visited
    ensures MergeKeys(current, Only(patch, visited + {t}))
         == var before := MergeKeys(current, Only(patch, visited));
            before[t := MergeIds(TypeOf(before, t), patch[t])]
  {
  }

  lemma MergeNoIds(current: map<string, Value>, patch: map<string, Value>)
    ensures MergeIds(current, Only(patch, {})) == current
    ensures Only(patch, patch.Keys) == patch
  {
  }

  lemma MergeNothing(current: KeyTable, patch: KeyTable)
    ensures MergeKeys(current, Only(patch, {})) == current
    ensures Only(patch, patch.Keys) == patch
  {
  }

  /** The inner loop of the merge: one key type, ids in any order. */
  method MergeOneType(current: map<string, Value>, patch: map<string, Value>) returns (merged: map<string, Value>)
    ensures merged == MergeIds(current, patch)
  {
    merged := current;
    ghost var visited := {};
    var ids := patch.Keys;
    MergeNoIds(current, patch);
    hide MergeIds;
    hide Only;
    while ids != {}
      invariant ids == patch.Keys - visited && visited <= patch.Keys
      invariant merged == MergeIds(current, Only(patch, visited))
      decreases |ids|
    {
      var id :| id in ids;
      MergeIdsStep(current, patch, visited, id);
      if patch[id] == Null {
        merged := merged - {id};
      } else {
        merged := merged[id := patch[id]];
      }
      ids := ids - {id};
      visited := visited + {id};
    }
    assert visited == patch.Keys;
  }

  /** One round of the outer loop: an absent type starts as an empty table. */
  method MergeTypeInto(table: KeyTable, t: string, patch: map<string, Value>) returns (merged: KeyTable)
    ensures merged == table[t := MergeIds(TypeOf(table, t), patch)]
  {
    merged := table;
    if t !in merged { merged := merged[t := map[]]; }
    var ofType := MergeOneType(merged[t], patch);
    merged := merged[t := ofType];
  }

  /** The merge loop of the hybrid hook and of the Redis store: types are visited in any order. */
  method MergeIncrementally(current: KeyTable, patch: KeyTable) returns (merged: KeyTable)
    ensures merged == MergeKeys(current, patch)
  {
    merged := current;
    ghost var visited := {};
    var types := patch.Keys;
    MergeNothing(current, patch);
    hide MergeKeys;
    hide MergeIds;
    hide Only;
    while types != {}
      invariant types == patch.Keys - visited && visited <= patch.Keys
      invariant merged == MergeKeys(current, Only(patch, visited))
      decreases types
    {
      var t :| t in types;
      MergeKeysStep(current, patch, visited, t);
      merged := MergeTypeInto(merged, t, patch[t]);
      types := types - {t};
      visited := visited + {t};
    }
    assert visited == patch.Keys;
  }
}
