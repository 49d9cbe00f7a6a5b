/** The update-category use case: load, patch through the mutators, write back. */
module UpdateCategory {
  import opened Shared
  import opened CategoryDomain
  import opened Repository

  /** The update delta; every field but the id may be left out. */
  datatype UpdateCategoryInput = UpdateCategoryInput(
    id: string,
    name: Optional<string>,
    description: Optional<Nullable<string>>,
    is_active: Optional<bool>)

  /** JavaScript truthiness of the optional name: supplied and not the empty string. */
  predicate NameGiven(input: UpdateCategoryInput)
  {
    input.name.Defined? && input.name.value != ""
  }

  /** The state `changeName` validates: the name applied, nothing else yet. */
  function AfterName(s: CategoryState, input: UpdateCategoryInput): CategoryState
  {
    if NameGiven(input) then s.(name := input.name.value) else s
  }

  /** The state `changeDescription` validates: name and description applied. */
  function AfterDescription(s: CategoryState, input: UpdateCategoryInput): CategoryState
  {
    var named := AfterName(s, input);
    if input.description.Defined? then named.(description := input.description.value) else named
  }

  /**
   * The mutator calls on a loaded category, in the source's order: rename
   * when the name is truthy, redescribe when the description is anything but
   * `undefined` (so `null` clears it), then activate on exactly `true` and
   * deactivate on exactly `false`. Only the first two validate.
   */
  function ApplyUpdate(s: CategoryState, input: UpdateCategoryInput, v: Validator): (r: Result<CategoryState>)
    ensures r.Ok? <==>
              (NameGiven(input) ==> IsValid(v, AfterName(s, input)))
              && (input.description.Defined? ==> IsValid(v, AfterDescription(s, input)))
    ensures r.Err? ==>
              r.error == EntityValidatorError(v(if NameGiven(input) && !IsValid(v, AfterName(s, input))
                                                then AfterName(s, input)
                                                else AfterDescription(s, input)))
    ensures r.Ok? ==> r.value.category_id == s.category_id && r.value.created_at == s.created_at
    ensures r.Ok? ==> r.value.name == (if NameGiven(input) then input.name.value else s.name)
    ensures r.Ok? ==>
              r.value.description == (if input.description.Defined? then input.description.value else s.description)
    ensures r.Ok? ==>
              r.value.is_active == (if input.is_active == Defined(true) then true
                                    else if input.is_active == Defined(false) then false
                                    else s.is_active)
  {
    var named := AfterName(s, input);
    var nameCheck := if NameGiven(input) then Validate(v, named) else Pass;
    if nameCheck.Fail? then Err(nameCheck.error)
    else
      var described := AfterDescription(s, input);
      var descriptionCheck := if input.description.Defined? then Validate(v, described) else Pass;
      if descriptionCheck.Fail? then Err(descriptionCheck.error)
      else
        var activated := if input.is_active == Defined(true) then described.(is_active := true) else described;
        Ok(if input.is_active == Defined(false) then activated.(is_active := false) else activated)
  }

  /**
   * The result and the new rows of one execution: a malformed id or a missing
   * category is raised before anything is changed, a failed validation leaves
   * the rows alone, and a success writes the patched category back.
   */
  function ExecuteUpdate(rows: Rows, input: UpdateCategoryInput, v: Validator, format: UuidFormat): (x: Execution)
    ensures x.result.Err? ==> x.rows == rows
    ensures !format(input.id) ==> x.result == Err(InvalidUuidError(input.id))
    ensures format(input.id) && input.id !in rows ==> x.result == Err(NotFoundError(input.id))
    ensures format(input.id) && input.id in rows && KeyedById(rows) ==>
              x.result == ApplyUpdate(rows[input.id], input, v)
    ensures x.result.Ok? ==>
              input.id in rows
              && x.result == ApplyUpdate(rows[input.id], input, v)
              && x.rows == rows[x.result.value.category_id.id := x.result.value]
    ensures x.result.Ok? && KeyedById(rows) ==> x.rows == rows[input.id := x.result.value]
  {
    if !format(input.id) then Execution(Err(InvalidUuidError(input.id)), rows)
    else if input.id !in rows then Execution(Err(NotFoundError(input.id)), rows)
    else
      match ApplyUpdate(rows[input.id], input, v)
      case Err(e) => Execution(Err(e), rows)
      case Ok(category) =>
        var key := category.category_id.id;
        if key !in rows then Execution(Err(NotFoundError(key)), rows)
        else Execution(Ok(category), rows[key := category])
  }

  class UpdateCategoryUseCase {
    const categoryRepo: CategoryRepository

    constructor (categoryRepo: CategoryRepository)
      ensures this.categoryRepo == categoryRepo
    {
      this.categoryRepo := categoryRepo;
    }

    /** Patches the loaded category step by step; the output is the category that was written. */
    method Execute(input: UpdateCategoryInput, v: Validator, format: UuidFormat) returns (r: Result<CategoryState>)
      requires categoryRepo.Valid()
      modifies categoryRepo
      ensures categoryRepo.Valid()
      ensures Execution(r, categoryRepo.rows) == ExecuteUpdate(old(categoryRepo.rows), input, v, format)
    {
      if !format(input.id) {
        return Err(InvalidUuidError(input.id));
      }
      var categoryId := Uuid(input.id);
      var category := categoryRepo.FindById(categoryId);
      if category == null {
        return Err(NotFoundError(input.id));
      }
      if NameGiven(input) {
        var renamed := category.ChangeName(input.name.value, v);
        if renamed.Fail? {
          return Err(renamed.error);
        }
      }
      if input.description.Defined? {
        var redescribed := category.ChangeDescription(input.description.value, v);
        if redescribed.Fail? {
          return Err(redescribed.error);
        }
      }
      if input.is_active == Defined(true) {
        category.Activate();
      }
      if input.is_active == Defined(false) {
        category.Deactivate();
      }
      var written := categoryRepo.Update(category);
      // The category was found under its own id, so writing it back cannot raise not-found.
      assert written.Pass?;
      return Ok(category.ToJSON());
    }
  }
}
