# Category aggregate, model mapper and create/update use cases

This project models the `Category` aggregate of a video-catalog admin
service, together with the logic around it:

- the entity's defaulting constructor, its validating factory `create`, its
  validating mutators `changeName` and `changeDescription`, its
  non-validating mutators `activate` and `deactivate`, `entity_id` and `toJSON`;
- the model mapper between a category and its database row;
- the create-category use case, which validates and then inserts;
- the update-category use case, which loads a category, patches it through
  the mutators and writes it back.

The model has these parts:

- `CategoryDomain` holds the entity. `Category` is a class with the five
  mutable fields of the source. Its mutators are methods whose contracts
  give the new `ToJSON()` projection in terms of the old one. The pure
  functions `Construct` and `CreateCategory` say what the constructor and
  `create` produce.
- The validation rules are kept abstract. Each operation that validates
  takes a `Validator` parameter, a function from the five field values to
  the field-error map. A category is valid when that map is empty. Every
  `EntityValidatorError` in the source is an `Err` carrying that map, so
  every property holds for every rule set.
- The Uuid format check is kept abstract in the same way, as a
  `UuidFormat` parameter.
- `new Uuid()` and `new Date()` are nondeterministic. Their values are
  inputs (`freshId`, `now`), and the constructor uses them only for a
  property that was left out.
- `Repository` holds the repository the use cases call. It is a class
  whose `rows` map an id string to the stored field values. Its invariant
  is that every row is stored under its own category's id. `FindById`
  returns a freshly built `Category`.
- Each use case is a class with an `Execute` method. Its contract ties the
  result and the new rows to a pure function: `ExecuteCreate` or
  `ExecuteUpdate`.
- `CategoryHistory` states what any sequence of use-case calls against one
  store preserves.

TypeScript's optional and nullable values are written out. `Optional<T>`
is `undefined` or a value. `Nullable<T>` is `null` or a value. A thrown
exception is the `Err`/`Fail` case of `Result`/`Outcome`.

Two consequences of the code are worth stating:

- `activate` and `deactivate` never validate. An update that only toggles
  `is_active` therefore runs no validation at all.
  `CategoryHistory.DeactivationSkipsValidation` shows that this can store
  a category the validator rejects. `CategoryHistory.UpdateKeepsRowsValid`
  shows that this cannot happen when the rules ignore `is_active`.
- An invalid category can exist in memory. The constructor does not
  validate, `changeName`/`changeDescription` keep a rejected value, and
  the repository's `findById` rebuilds without validating. Only the
  mapper's `toEntity` re-validates on load.

## Model

| member | source | states |
|---|---|---|
| `CategoryDomain.Validate` | src/category/domain/category.entity.ts:70-76 | passes exactly when the validator reports no violation; otherwise fails with `EntityValidatorError` carrying the non-empty error map |
| `CategoryDomain.Construct` | src/category/domain/category.entity.ts:29-36 | a left-out id gives the fresh Uuid; a left-out description gives `null`; a left-out `is_active` gives `true`; a left-out `created_at` gives "now"; every supplied value is kept, including `false` and `""`; no validation and no failure |
| `CategoryDomain.CreateCategory` | src/category/domain/category.entity.ts:42-46 | succeeds iff the constructed category is valid, and otherwise gives the validator's error; a created category has the fresh id and "now" as creation time; a left-out description is `null`; `is_active` is false only when `false` was given |
| `CategoryDomain.Category.constructor` | src/category/domain/category.entity.ts:29-36 | the new object's fields are `Construct` of the props; there is no validity precondition or check |
| `CategoryDomain.Category.ToJSON` | src/category/domain/category.entity.ts:78-86 | projects exactly the five fields, unchanged |
| `CategoryDomain.Category.EntityId` | src/category/domain/category.entity.ts:38-40 | the entity's identity is its `category_id` |
| `CategoryDomain.Category.Create` | src/category/domain/category.entity.ts:42-46 | returns a new category iff `CreateCategory` succeeds, with exactly its fields; otherwise returns the same validation error |
| `CategoryDomain.Category.ChangeName` | src/category/domain/category.entity.ts:52-55 | the name becomes the argument and no other field changes, whether or not validation then fails (no rollback); fails iff the new state is invalid |
| `CategoryDomain.Category.ChangeDescription` | src/category/domain/category.entity.ts:57-60 | the same as `ChangeName`, for the description, `null` included |
| `CategoryDomain.Category.Activate` | src/category/domain/category.entity.ts:62-64 | sets `is_active` to true; changes nothing else; never validates |
| `CategoryDomain.Category.Deactivate` | src/category/domain/category.entity.ts:66-68 | sets `is_active` to false; changes nothing else; never validates |
| `Repository.CategoryRepository.constructor` | src/category/infra/sequelize/category-sequelize.repository.ts:13 | opens a store whose rows are already keyed by their own id; the repository invariant holds from the start |
| `Repository.CategoryRepository.Insert` | src/category/infra/sequelize/category-sequelize.repository.ts:15-23 | stores the category's fields under its id string; an id already stored is refused with a store error and the rows are unchanged; keeps rows keyed by their own id |
| `Repository.CategoryRepository.Update` | src/category/application/use-cases/update-category/update-category.use-case.ts:24 | overwrites the stored row of the category's id; an id not stored raises `NotFoundError` and nothing changes |
| `Repository.CategoryRepository.FindById` | src/category/infra/sequelize/category-sequelize.repository.ts:43-52 | `null` exactly when the id is not stored; otherwise a new object whose fields are the stored row, rebuilt without validation |
| `CategoryModelMapper.ToModel` | src/category/infra/db/sequelize/category-model-mapper.ts:6-14 | copies name, description, `is_active` and `created_at` verbatim and stores the id as the Uuid's string; cannot fail |
| `CategoryModelMapper.ToEntity` | src/category/infra/db/sequelize/category-model-mapper.ts:16-30 | a malformed id raises `InvalidUuidError`; otherwise fails exactly when the rebuilt category is invalid, with `EntityValidatorError` carrying that category's violation map; on success it reuses the row's id and creation time and never the generator's or the clock's |
| `CategoryModelMapper.RoundTrip` | src/category/infra/db/sequelize/category-model-mapper.ts:6-30 | a valid category with a well-formed id comes back from `ToEntity(ToModel(e))` identical, `null` description and `false` included |
| `CategoryModelMapper.ModelRoundTrip` | src/category/infra/db/sequelize/category-model-mapper.ts:6-30 | a row that loads maps back to exactly the same row |
| `CreateCategory.ExecuteCreate` | src/category/application/use-cases/create-category/create-category.use-case.ts:14-21 | an invalid command gives the validation error and leaves the rows unchanged (insert is never reached); success adds exactly one row, the created category under its fresh id, and returns that same category; defaults apply for a left-out `is_active`/description |
| `CreateCategory.CreateCategoryUseCase.constructor` | src/category/application/use-cases/create-category/create-category.use-case.ts:12 | the use case works on the repository it was given |
| `CreateCategory.CreateCategoryUseCase.Execute` | src/category/application/use-cases/create-category/create-category.use-case.ts:14-21 | builds with `Category.Create`, inserts only on success, and returns the inserted entity's projection; result and new rows are `ExecuteCreate` of the old rows; keeps the repository invariant |
| `UpdateCategory.ApplyUpdate` | src/category/application/use-cases/update-category/update-category.use-case.ts:17-20 | the name changes only when the input name is truthy; the description changes whenever it is not `undefined`, `null` included; `is_active` becomes true only on `=== true` and false only on `=== false`; id and `created_at` never change; fails iff a state that `changeName`/`changeDescription` validates is invalid, with `EntityValidatorError` carrying the violation map of the first such state |
| `UpdateCategory.ExecuteUpdate` | src/category/application/use-cases/update-category/update-category.use-case.ts:13-26 | a malformed id raises `InvalidUuidError`; a missing category raises `NotFoundError`; any failure leaves the rows unchanged (update is not called); success replaces the row for the id by the patched category and returns that category |
| `UpdateCategory.UpdateCategoryUseCase.constructor` | src/category/application/use-cases/update-category/update-category.use-case.ts:11 | the use case works on the repository it was given |
| `UpdateCategory.UpdateCategoryUseCase.Execute` | src/category/application/use-cases/update-category/update-category.use-case.ts:13-26 | loads, applies the up to four mutator calls to the loaded object step by step, and writes it back; result and new rows are `ExecuteUpdate` of the old rows; keeps the repository invariant |
| `CategoryHistory.StepKeepsIdentities` | src/category/application/use-cases/update-category/update-category.use-case.ts:14-24 | one create or update keeps rows keyed by their own id, drops no row, and changes no stored id or `created_at` |
| `CategoryHistory.ReplayKeepsIdentities` | src/category/application/use-cases/update-category/update-category.use-case.ts:14-24 | the same holds for any sequence of creates and updates |
| `CategoryHistory.CreateKeepsRowsValid` | src/category/application/use-cases/create-category/create-category.use-case.ts:15-19 | a create stores only a validated category |
| `CategoryHistory.UpdateKeepsRowsValid` | src/category/application/use-cases/update-category/update-category.use-case.ts:17-24 | an update keeps every stored category valid when the rules ignore `is_active` |
| `CategoryHistory.ReplayKeepsRowsValid` | src/category/application/use-cases/update-category/update-category.use-case.ts:17-24 | under such rules, any sequence of creates and updates keeps every stored category valid |
| `CategoryHistory.DeactivationSkipsValidation` | src/category/application/use-cases/update-category/update-category.use-case.ts:19-24 | under rules that reject inactive categories, deactivating a valid stored category succeeds and stores a category that is not valid |

## Left out

- Search, pagination, filtering and sorting (`SearchParams`, `SearchResult`) are not modelled. Their source is not part of this model, and the concrete repository's `search` only throws "Method not implemented." (src/category/infra/sequelize/category-sequelize.repository.ts:71-73).
- Of the Sequelize repository, `bulkInsert`, `findAll` and the unimplemented `update` and `delete` are not modelled. `Repository.CategoryRepository` is the repository the use cases call. Its `Update` follows the repository contract: not-found on a missing id.
- `Repository.CategoryRepository.Insert`: the refusal of an id already stored is not in the cited lines, which only call `create` on the ORM model. It relies on `category_id` being the table's key, and the table definition (`category.model`) is not part of this model.
- `Repository.CategoryRepository.FindById` follows the Sequelize repository, which builds a new object on every load (src/category/infra/sequelize/category-sequelize.repository.ts:45-51). That is why a failed `changeName`/`changeDescription` during an update leaves the store untouched. A repository that handed out its stored object would keep the rejected value; such repositories are not modelled.
- The concrete `findById` dereferences the row that `findByPk` returns, which can be null. The model returns `null` for a missing id instead.
- The validation rules (the category validator) are a parameter. No length limits or required-field rules are assumed.
- The Uuid format check is a parameter. `uuid.vo` is not part of this model.
- The `ValueObject`/`Entity` base classes and their `equals` are not part of this model. A Uuid is a datatype compared by value.
- `CategoryOutputMapper.toOutput` is not part of this model. A use case's output is the `toJSON` projection of the entity it was derived from.
- Promises and `await` are not modelled. Each use case runs to completion in sequence.
- The clock (`new Date()`) and the random id generator (`new Uuid()`) are inputs. The model proves no freshness of generated ids. A create whose generated id is already stored is refused by the repository's unique-key check.
- `Category.fake()` (test data) and the commented-out notification checks are left out.
- The update input type is not part of this model. The model takes it to be `name?: string`, `description?: string | null` and `is_active?: boolean`. Other runtime values in it (a non-string `name`, a `null` `is_active`) are not modelled beyond "not strictly `true`/`false`".
- The create command follows `CategoryCreateCommand` (src/category/domain/category.entity.ts:16-20): `name` is required, `description` may be left out or `null`, and `is_active` may be left out. A `null` `is_active`, which `??` would turn into `true`, is outside that type and is not modelled.
- `UpdateCategory.UpdateCategoryUseCase.Execute`: the final `update` cannot fail. The repository invariant stores every row under its own id, so the loaded category is always found again. The method therefore has no separate path for that error.
