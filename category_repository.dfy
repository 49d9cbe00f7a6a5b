/**
 * The category repository as the use cases see it: a store of rows keyed by
 * the category id string, with `insert`, `update` and `findById`. The ORM
 * binding behind it is not part of this model.
 */
module Repository {
  import opened Shared
  import opened CategoryDomain

  type Rows = map<string, CategoryState>

  /** Every row sits under the id string of its own category. */
  ghost predicate KeyedById(rows: Rows)
  {
    forall k | k in rows :: rows[k].category_id.id == k
  }

  /** What a use case returns, and the rows it leaves behind. */
  datatype Execution = Execution(result: Result<CategoryState>, rows: Rows)

  class CategoryRepository {
    var rows: Rows

    ghost predicate Valid()
      reads this
    {
      KeyedById(rows)
    }

    /** Opens a store whose rows are already keyed by their own category id. */
    constructor (initial: Rows)
      requires KeyedById(initial)
      ensures Valid() && rows == initial
    {
      rows := initial;
    }

    /** Adds a new row; a category whose id is already stored is refused with the store's error. */
    method Insert(entity: Category) returns (r: Outcome)
      requires Valid()
      modifies this
      ensures Valid()
      ensures entity.category_id.id !in old(rows) ==>
                r == Pass && rows == old(rows)[entity.category_id.id := entity.ToJSON()]
      ensures entity.category_id.id in old(rows) ==>
                r == Fail(UniqueConstraintError(entity.category_id.id)) && rows == old(rows)
    {
      var key := entity.EntityId().id;
      if key in rows {
        return Fail(UniqueConstraintError(key));
      }
      rows := rows[key := entity.ToJSON()];
      r := Pass;
    }

    /** Overwrites the stored row of the category; an id that is not stored raises not-found. */
    method Update(entity: Category) returns (r: Outcome)
      requires Valid()
      modifies this
      ensures Valid()
      ensures entity.category_id.id in old(rows) ==>
                r == Pass && rows == old(rows)[entity.category_id.id := entity.ToJSON()]
      ensures entity.category_id.id !in old(rows) ==>
                r == Fail(NotFoundError(entity.category_id.id)) && rows == old(rows)
    {
      var key := entity.EntityId().id;
      if key !in rows {
        return Fail(NotFoundError(key));
      }
      rows := rows[key := entity.ToJSON()];
      r := Pass;
    }

    /** A new category object rebuilt from the stored row, or `null` when there is none. */
    method FindById(entityId: Uuid) returns (c: Category?)
      ensures c == null <==> entityId.id !in rows
      ensures c != null ==> fresh(c) && c.ToJSON() == rows[entityId.id]
    {
      if entityId.id !in rows {
        return null;
      }
      var row := rows[entityId.id];
      // Every property is supplied, so the constructor falls back on neither default.
      var props := CategoryConstructorProps(
        Defined(row.category_id), row.name, Defined(row.description), Defined(row.is_active), Defined(row.created_at));
      c := new Category(props, row.category_id, row.created_at);
    }
  }
}
