/**
 * The Category aggregate: its identity value, its five fields, the defaulting
 * constructor, the validating factory and the four mutators.
 *
 * The validation rules themselves (the category validator) are not part of
 * this model: every operation that validates takes the validator as a
 * parameter, so whatever is proved here holds for every rule set.
 */
module CategoryDomain {
  import opened Shared

  /** The identifier value object; only its `id` string is modelled. */
  datatype Uuid = Uuid(id: string)

  /** The format check `new Uuid(s)` applies to a supplied string. */
  type UuidFormat = string -> bool

  /** A `Date`, as milliseconds since the epoch. */
  datatype Timestamp = Timestamp(epochMillis: int)

  /** The five fields of a category, exactly as `toJSON` projects them. */
  datatype CategoryState = CategoryState(
    category_id: Uuid,
    name: string,
    description: Nullable<string>,
    is_active: bool,
    created_at: Timestamp)

  /** What the constructor accepts: everything but `name` may be left out. */
  datatype CategoryConstructorProps = CategoryConstructorProps(
    category_id: Optional<Uuid>,
    name: string,
    description: Optional<Nullable<string>>,
    is_active: Optional<bool>,
    created_at: Optional<Timestamp>)

  /** What `create` accepts: no id and no creation time. */
  datatype CategoryCreateCommand = CategoryCreateCommand(
    name: string,
    description: Optional<Nullable<string>>,
    is_active: Optional<bool>)

  /** The constructor properties `create` passes on for a command. */
  function CommandProps(cmd: CategoryCreateCommand): CategoryConstructorProps
  {
    CategoryConstructorProps(Undefined, cmd.name, cmd.description, cmd.is_active, Undefined)
  }

  /** The validator a category is checked with: the field errors it reports for a state. */
  type Validator = CategoryState -> FieldErrors

  predicate IsValid(v: Validator, s: CategoryState)
  {
    v(s) == map[]
  }

  /** `Category.validate`: throws when the validator reports any violation. */
  function Validate(v: Validator, s: CategoryState): (r: Outcome)
    ensures r.Pass? <==> IsValid(v, s)
    ensures r.Fail? ==> r.error == EntityValidatorError(v(s)) && r.error.errors != map[]
  {
    if v(s) == map[] then Pass else Fail(EntityValidatorError(v(s)))
  }

  /**
   * The field values the constructor assigns. `freshId` and `now` stand for
   * what `new Uuid()` and `new Date()` would return; the constructor uses
   * them only for a property that was left out. It never validates.
   */
  function Construct(props: CategoryConstructorProps, freshId: Uuid, now: Timestamp): (s: CategoryState)
    ensures s.category_id == (if props.category_id.Undefined? then freshId else props.category_id.value)
    ensures s.name == props.name
    ensures props.description.Undefined? ==> s.description == Null
    ensures props.description.Defined? ==> s.description == props.description.value
    ensures s.is_active <==> props.is_active.Undefined? || props.is_active.value
    ensures s.created_at == (if props.created_at.Undefined? then now else props.created_at.value)
  {
    CategoryState(
      OrElse(props.category_id, freshId),
      props.name,
      OrElse(props.description, Null),
      OrElse(props.is_active, true),
      OrElse(props.created_at, now))
  }

  /** `Category.create`: construct from the command, then validate. */
  function CreateCategory(cmd: CategoryCreateCommand, freshId: Uuid, now: Timestamp, v: Validator): (r: Result<CategoryState>)
    ensures r.Ok? <==> IsValid(v, Construct(CommandProps(cmd), freshId, now))
    ensures r.Err? ==> r.error == EntityValidatorError(v(Construct(CommandProps(cmd), freshId, now)))
    ensures r.Ok? ==> r.value.category_id == freshId && r.value.created_at == now
    ensures r.Ok? ==> r.value.name == cmd.name
    ensures r.Ok? ==> r.value.description == OrElse(cmd.description, Null)
    ensures r.Ok? ==> (r.value.is_active <==> cmd.is_active != Defined(false))
  {
    var s := Construct(CommandProps(cmd), freshId, now);
    match Validate(v, s)
    case Pass => Ok(s)
    case Fail(e) => Err(e)
  }

  class Category {
    var category_id: Uuid
    var name: string
    var description: Nullable<string>
    var is_active: bool
    var created_at: Timestamp

    /** Applies the defaults and nothing else: the result may well be invalid. */
    constructor (props: CategoryConstructorProps, freshId: Uuid, now: Timestamp)
      ensures ToJSON() == Construct(props, freshId, now)
    {
      category_id := OrElse(props.category_id, freshId);
      name := props.name;
      description := OrElse(props.description, Null);
      is_active := OrElse(props.is_active, true);
      created_at := OrElse(props.created_at, now);
    }

    /** The five fields, unchanged. */
    function ToJSON(): (j: CategoryState)
      reads this
      ensures j.category_id == category_id && j.name == name && j.description == description
      ensures j.is_active == is_active && j.created_at == created_at
    {
      CategoryState(category_id, name, description, is_active, created_at)
    }

    /** The identity of the entity is its `category_id`. */
    function EntityId(): (id: Uuid)
      reads this
      ensures id == ToJSON().category_id
    {
      category_id
    }

    /** A new category exactly when the constructed state is valid, otherwise the validation error. */
    static method Create(cmd: CategoryCreateCommand, freshId: Uuid, now: Timestamp, v: Validator)
      returns (r: Result<Category>)
      ensures r.Ok? <==> CreateCategory(cmd, freshId, now, v).Ok?
      ensures r.Ok? ==> fresh(r.value) && r.value.ToJSON() == CreateCategory(cmd, freshId, now, v).value
      ensures r.Err? ==> r.error == CreateCategory(cmd, freshId, now, v).error
    {
      var category := new Category(CommandProps(cmd), freshId, now);
      var outcome := Validate(v, category.ToJSON());
      if outcome.Fail? {
        return Err(outcome.error);
      }
      return Ok(category);
    }

    /** Assigns the name first and validates afterwards: a rejected name stays assigned. */
    method ChangeName(newName: string, v: Validator) returns (r: Outcome)
      modifies this
      ensures ToJSON() == old(ToJSON()).(name := newName)
      ensures r.Pass? <==> IsValid(v, ToJSON())
      ensures r == Validate(v, ToJSON())
    {
      name := newName;
      r := Validate(v, ToJSON());
    }

    /** As `ChangeName`, for the description, `null` included. */
    method ChangeDescription(newDescription: Nullable<string>, v: Validator) returns (r: Outcome)
      modifies this
      ensures ToJSON() == old(ToJSON()).(description := newDescription)
      ensures r.Pass? <==> IsValid(v, ToJSON())
      ensures r == Validate(v, ToJSON())
    {
      description := newDescription;
      r := Validate(v, ToJSON());
    }

    /** Sets `is_active`; takes no validator because it never validates. */
    method Activate()
      modifies this
      ensures ToJSON() == old(ToJSON()).(is_active := true)
    {
      is_active := true;
    }

    method Deactivate()
      modifies this
      ensures ToJSON() == old(ToJSON()).(is_active := false)
    {
      is_active := false;
    }
  }
}
