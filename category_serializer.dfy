/** CategorySerializer (store/serializers/category.py): fields id, name and
    description. The name must be a non-blank string of at most 255
    characters, and then `validate_name` refuses any name some category
    already has. */
module CategorySerializer {
  import opened Common
  import opened Models

  /** The writable fields as submitted; None is an absent field. The owner
      is not a field. */
  datatype CategoryInput = CategoryInput(name: Option<string>, description: Option<string>)

  const NameTakenMessage: string := "Category with this name already exists."

  /** validate_name: the lookup is by name alone, so it does not exclude the
      category being updated. */
  function ValidateName(categories: seq<Category>, value: string): (r: Result<string, string>)
    ensures r.Ok? <==> !HasCategoryNamed(categories, value)
    ensures r.Ok? ==> r.value == value
    ensures r.Err? ==> r.error == NameTakenMessage
  {
    if HasCategoryNamed(categories, value) then Err(NameTakenMessage) else Ok(value)
  }

  /** The error reported for the name, if any: required when the whole
      object is submitted, then the string field's checks, then
      validate_name. */
  function NameError(categories: seq<Category>, name: Option<string>, partial: bool): (r: Option<string>)
    ensures name.None? ==> (r.Some? <==> !partial) && (r.Some? ==> r.value == RequiredMessage)
    ensures name.Some? ==> (r.None? <==> CharFieldError(name.value, 255).None? && ValidateName(categories, name.value).Ok?)
    ensures name.Some? && CharFieldError(name.value, 255).Some? ==> r == CharFieldError(name.value, 255)
  {
    match name
    case None => if partial then None else Some(RequiredMessage)
    case Some(v) =>
      match CharFieldError(v, 255)
      case Some(e) => Some(e)
      case None =>
        match ValidateName(categories, v)
        case Ok(_) => None
        case Err(e) => Some(e)
  }

  /** is_valid(): the description is optional and may be blank, so only the
      name can fail. */
  function ValidateCategory(categories: seq<Category>, input: CategoryInput, partial: bool): (r: Result<CategoryInput, map<string, string>>)
    ensures r.Ok? <==> NameError(categories, input.name, partial).None?
    ensures r.Ok? ==> r.value == input
    ensures r.Err? ==> r.error == map["name" := NameError(categories, input.name, partial).value]
  {
    match NameError(categories, input.name, partial)
    case None => Ok(input)
    case Some(e) => Err(map["name" := e])
  }

  /** An accepted name is held by no category; an accepted full submission
      has a name. */
  lemma AcceptedNameIsFree(categories: seq<Category>, input: CategoryInput, partial: bool)
    requires ValidateCategory(categories, input, partial).Ok?
    ensures input.name.Some? ==> !HasCategoryNamed(categories, input.name.value) && input.name.value != ""
    ensures !partial ==> input.name.Some?
  {
  }

  /** Resubmitting a category's own current name is refused, even in an
      update of that very category. */
  lemma OwnNameRejected(categories: seq<Category>, i: nat, description: Option<string>)
    requires i < |categories|
    ensures ValidateCategory(categories, CategoryInput(Some(categories[i].name), description), true).Err?
  {
  }

  /** A blank name is refused as blank, before the uniqueness check. */
  lemma BlankNameRejected(categories: seq<Category>, description: Option<string>, partial: bool)
    ensures ValidateCategory(categories, CategoryInput(Some(""), description), partial) == Err(map["name" := BlankMessage])
  {
  }
}
