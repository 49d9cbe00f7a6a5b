/** The create-category use case: validate the command, then insert it. */
module CreateCategory {
  import opened Shared
  import opened CategoryDomain
  import opened Repository

  /**
   * The result and the new rows of one execution. The category is built and
   * validated before `insert` is reached, so an invalid command leaves the
   * rows alone; otherwise exactly one row, the created category, is added.
   */
  function ExecuteCreate(rows: Rows, cmd: CategoryCreateCommand, freshId: Uuid, now: Timestamp, v: Validator)
    : (x: Execution)
    ensures x.result.Err? ==> x.rows == rows
    ensures CreateCategory(cmd, freshId, now, v).Err? ==> x.result == CreateCategory(cmd, freshId, now, v)
    ensures CreateCategory(cmd, freshId, now, v).Ok? && freshId.id in rows ==>
              x.result == Err(UniqueConstraintError(freshId.id))
    ensures x.result.Ok? <==> CreateCategory(cmd, freshId, now, v).Ok? && freshId.id !in rows
    ensures x.result.Ok? ==>
              x.result == CreateCategory(cmd, freshId, now, v)
              && x.rows == rows[freshId.id := x.result.value]
              && |x.rows| == |rows| + 1
    ensures x.result.Ok? ==> x.result.value.category_id == freshId && x.result.value.created_at == now
    ensures x.result.Ok? && cmd.is_active.Undefined? ==> x.result.value.is_active
    ensures x.result.Ok? && cmd.description.Undefined? ==> x.result.value.description == Null
  {
    match CreateCategory(cmd, freshId, now, v)
    case Err(e) => Execution(Err(e), rows)
    case Ok(category) =>
      var key := category.category_id.id;
      if key in rows then Execution(Err(UniqueConstraintError(key)), rows)
      else Execution(Ok(category), rows[key := category])
  }

  class CreateCategoryUseCase {
    const categoryRepo: CategoryRepository

    constructor (categoryRepo: CategoryRepository)
      ensures this.categoryRepo == categoryRepo
    {
      this.categoryRepo := categoryRepo;
    }

    /** The output is the projection of the very category that was inserted. */
    method Execute(input: CategoryCreateCommand, freshId: Uuid, now: Timestamp, v: Validator)
      returns (r: Result<CategoryState>)
      requires categoryRepo.Valid()
      modifies categoryRepo
      ensures categoryRepo.Valid()
      ensures Execution(r, categoryRepo.rows) == ExecuteCreate(old(categoryRepo.rows), input, freshId, now, v)
    {
      var created := Category.Create(input, freshId, now, v);
      if created.Err? {
        return Err(created.error);
      }
      var entity := created.value;
      var inserted := categoryRepo.Insert(entity);
      if inserted.Fail? {
        return Err(inserted.error);
      }
      return Ok(entity.ToJSON());
    }
  }
}
