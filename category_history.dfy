/**
 * Sequences of use-case executions against one store, each observing the
 * rows the previous one left behind: what every such history preserves.
 */
module CategoryHistory {
  import opened Shared
  import opened CategoryDomain
  import opened Repository
  import opened CreateCategory
  import opened UpdateCategory

  /** One use-case call, with the id and clock values a create would draw. */
  datatype Request =
    | CreateRequest(cmd: CategoryCreateCommand, freshId: Uuid, now: Timestamp)
    | UpdateRequest(input: UpdateCategoryInput)

  function Step(rows: Rows, request: Request, v: Validator, format: UuidFormat): Rows
  {
    match request
    case CreateRequest(cmd, freshId, now) => ExecuteCreate(rows, cmd, freshId, now, v).rows
    case UpdateRequest(input) => ExecuteUpdate(rows, input, v, format).rows
  }

  function Replay(rows: Rows, requests: seq<Request>, v: Validator, format: UuidFormat): Rows
    decreases |requests|
  {
    if requests == [] then rows else Replay(Step(rows, requests[0], v, format), requests[1..], v, format)
  }

  /** Every stored category is still stored, with the same id and creation time. */
  ghost predicate IdentitiesKept(before: Rows, after: Rows)
  {
    forall k | k in before ::
      k in after && after[k].category_id == before[k].category_id && after[k].created_at == before[k].created_at
  }

  ghost predicate AllValid(rows: Rows, v: Validator)
  {
    forall k | k in rows :: IsValid(v, rows[k])
  }

  function WithActive(s: CategoryState, active: bool): CategoryState
  {
    s.(is_active := active)
  }

  /** The validator reports the same errors whatever `is_active` holds. */
  ghost predicate IgnoresIsActive(v: Validator)
  {
    forall s: CategoryState, active: bool :: v(WithActive(s, active)) == v(s)
  }

  lemma StepKeepsIdentities(rows: Rows, request: Request, v: Validator, format: UuidFormat)
    requires KeyedById(rows)
    ensures KeyedById(Step(rows, request, v, format))
    ensures IdentitiesKept(rows, Step(rows, request, v, format))
  {
  }

  /** No history of creates and updates moves, drops or re-identifies a stored category. */
  lemma {:induction false} ReplayKeepsIdentities(rows: Rows, requests: seq<Request>, v: Validator, format: UuidFormat)
    requires KeyedById(rows)
    ensures KeyedById(Replay(rows, requests, v, format))
    ensures IdentitiesKept(rows, Replay(rows, requests, v, format))
    decreases |requests|
  {
    if requests != [] {
      var next := Step(rows, requests[0], v, format);
      StepKeepsIdentities(rows, requests[0], v, format);
      ReplayKeepsIdentities(next, requests[1..], v, format);
    }
  }

  /** A create stores only a category that passed validation. */
  lemma CreateKeepsRowsValid(rows: Rows, cmd: CategoryCreateCommand, freshId: Uuid, now: Timestamp, v: Validator)
    requires AllValid(rows, v)
    ensures AllValid(ExecuteCreate(rows, cmd, freshId, now, v).rows, v)
  {
  }

  /**
   * The last validation an update runs may precede its activate/deactivate
   * step, and an update that only toggles `is_active` runs none: the stored
   * category stays valid when the validator does not look at `is_active`.
   */
  lemma UpdateKeepsRowsValid(rows: Rows, input: UpdateCategoryInput, v: Validator, format: UuidFormat)
    requires KeyedById(rows) && AllValid(rows, v) && IgnoresIsActive(v)
    ensures AllValid(ExecuteUpdate(rows, input, v, format).rows, v)
  {
    var x := ExecuteUpdate(rows, input, v, format);
    if x.result.Ok? {
      var s := rows[input.id];
      var patched := x.result.value;
      var checked := AfterDescription(s, input);
      assert patched == WithActive(checked, patched.is_active);
      assert v(WithActive(checked, patched.is_active)) == v(checked);
      if !input.description.Defined? && !NameGiven(input) {
        assert checked == s;
      }
      assert IsValid(v, patched);
    }
  }

  /** Under such a validator, every history leaves only valid categories in the store. */
  lemma {:induction false} ReplayKeepsRowsValid(rows: Rows, requests: seq<Request>, v: Validator, format: UuidFormat)
    requires KeyedById(rows) && AllValid(rows, v) && IgnoresIsActive(v)
    ensures AllValid(Replay(rows, requests, v, format), v)
    decreases |requests|
  {
    if requests != [] {
      var next := Step(rows, requests[0], v, format);
      StepKeepsIdentities(rows, requests[0], v, format);
      match requests[0] {
        case CreateRequest(cmd, freshId, now) => CreateKeepsRowsValid(rows, cmd, freshId, now, v);
        case UpdateRequest(input) => UpdateKeepsRowsValid(rows, input, v, format);
      }
      ReplayKeepsRowsValid(next, requests[1..], v, format);
    }
  }

  /** A rule set that does look at `is_active`. */
  function RejectsInactive(s: CategoryState): FieldErrors
  {
    if s.is_active then map[] else map["is_active" := ["must be active"]]
  }

  /**
   * Without that condition the store can end up holding a category that was
   * never validated: deactivating a valid category under a validator that
   * rejects inactive ones succeeds and writes the rejected state.
   */
  lemma DeactivationSkipsValidation()
    ensures var v: Validator := RejectsInactive;
            var row := CategoryState(Uuid("a"), "Movie", Null, true, Timestamp(0));
            var x := ExecuteUpdate(map["a" := row], UpdateCategoryInput("a", Undefined, Undefined, Defined(false)), v, _ => true);
            IsValid(v, row) && x.result.Ok? && "a" in x.rows && !IsValid(v, x.rows["a"])
  {
    var row := CategoryState(Uuid("a"), "Movie", Null, true, Timestamp(0));
    var input := UpdateCategoryInput("a", Undefined, Undefined, Defined(false));
    var patched := ApplyUpdate(row, input, RejectsInactive);
    assert patched == Ok(row.(is_active := false));
    assert RejectsInactive(row.(is_active := false)) != map[] by {
      assert "is_active" in RejectsInactive(row.(is_active := false));
    }
  }
}
