/** Projection between a category and its database row. */
module CategoryModelMapper {
  import opened Shared
  import opened CategoryDomain

  /** A database row: the id is stored as its plain string. */
  datatype CategoryModel = CategoryModel(
    category_id: string,
    name: string,
    description: Nullable<string>,
    is_active: bool,
    created_at: Timestamp)

  /** Copies the fields verbatim, storing the Uuid as its string; never validates, never fails. */
  function ToModel(entity: CategoryState): (m: CategoryModel)
    ensures m.category_id == entity.category_id.id
    ensures m.name == entity.name && m.description == entity.description
    ensures m.is_active == entity.is_active && m.created_at == entity.created_at
  {
    CategoryModel(entity.category_id.id, entity.name, entity.description, entity.is_active, entity.created_at)
  }

  /**
   * Rebuilds the category through its constructor and validates it. The
   * wrapped id must pass the Uuid format check; `freshId` and `now` are what
   * the constructor would fall back on, and the contract shows it never does.
   */
  function ToEntity(model: CategoryModel, v: Validator, format: UuidFormat, freshId: Uuid, now: Timestamp)
    : (r: Result<CategoryState>)
    ensures !format(model.category_id) ==> r == Err(InvalidUuidError(model.category_id))
    ensures r.Ok? ==> r.value.category_id == Uuid(model.category_id) && r.value.created_at == model.created_at
    ensures r.Ok? ==> r.value.name == model.name && r.value.description == model.description
    ensures r.Ok? ==> r.value.is_active == model.is_active
    ensures format(model.category_id) ==> (r.Ok? <==> IsValid(v, CategoryState(
              Uuid(model.category_id), model.name, model.description, model.is_active, model.created_at)))
    ensures format(model.category_id) && r.Err? ==> r.error == EntityValidatorError(v(CategoryState(
              Uuid(model.category_id), model.name, model.description, model.is_active, model.created_at)))
  {
    if !format(model.category_id) then
      Err(InvalidUuidError(model.category_id))
    else
      var props := CategoryConstructorProps(
        Defined(Uuid(model.category_id)), model.name, Defined(model.description),
        Defined(model.is_active), Defined(model.created_at));
      var category := Construct(props, freshId, now);
      match Validate(v, category)
      case Pass => Ok(category)
      case Fail(e) => Err(e)
  }

  /** A valid category with a well-formed id survives the trip to the database and back unchanged. */
  lemma RoundTrip(entity: CategoryState, v: Validator, format: UuidFormat, freshId: Uuid, now: Timestamp)
    requires IsValid(v, entity) && format(entity.category_id.id)
    ensures ToEntity(ToModel(entity), v, format, freshId, now) == Ok(entity)
  {
  }

  /** A row that loads is exactly the row its category maps back to. */
  lemma ModelRoundTrip(model: CategoryModel, v: Validator, format: UuidFormat, freshId: Uuid, now: Timestamp)
    requires ToEntity(model, v, format, freshId, now).Ok?
    ensures ToModel(ToEntity(model, v, format, freshId, now).value) == model
  {
  }
}
