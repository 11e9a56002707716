/** `validate_item_input`: the check on an item's request body before it is
    created or updated. The title must be present and truthy, and no longer
    than 100; the description is not looked at. */
module ItemValidation {
  import opened Common

  const RequiredMessage := "Title is required"
  const TooLongMessage := "Title must be less than 100 characters"
  /** The longest title accepted. */
  const MaxTitleLength := 100

  /** How validation ends: it returns `True`, aborts with HTTP 400 and a
      message, or `len()` raises `TypeError` on a truthy title that has no
      length (a non-zero number or `true`). */
  datatype ItemCheck = Accepted | Aborted(status: int, message: string) | LengthUndefined

  /** Python truthiness of a JSON value. */
  predicate Truthy(v: Json) {
    match v
    case JNull => false
    case JBool(b) => b
    case JNumber(n) => n != 0.0
    case JString(s) => s != []
    case JArray(items) => items != []
    case JObject(fields) => fields != map[]
  }

  /** Python `len(v)`, where it is defined. */
  function Length(v: Json): Option<nat> {
    match v
    case JString(s) => Some(|s|)
    case JArray(items) => Some(|items|)
    case JObject(fields) => Some(|fields|)
    case _ => None
  }

  /** `validate_item_input(data)`. */
  function ValidateItemInput(data: map<string, Json>): (r: ItemCheck)
    ensures r.Aborted? ==> r.status == 400 && (r.message == RequiredMessage || r.message == TooLongMessage)
    ensures r.LengthUndefined? ==> "title" in data && Truthy(data["title"]) && Length(data["title"]).None?
    ensures r.Accepted? ==> "title" in data && Length(data["title"]).Some?
  {
    if "title" !in data || !Truthy(data["title"]) then Aborted(400, RequiredMessage)
    else match Length(data["title"])
      case None => LengthUndefined
      case Some(n) => if n > MaxTitleLength then Aborted(400, TooLongMessage) else Accepted
  }

  /** A missing title, or a falsy one (empty string, `null`, `0`, `false`,
      empty list or object), is refused as required. */
  lemma MissingTitleRequired(data: map<string, Json>)
    requires "title" !in data || !Truthy(data["title"])
    ensures ValidateItemInput(data) == Aborted(400, RequiredMessage)
  {
  }

  /** For a string title: the empty string is refused as required (presence
      is tested before length), more than 100 characters is refused as too
      long, and every length from 1 to 100 is accepted. */
  lemma StringTitleVerdict(data: map<string, Json>, title: string)
    requires "title" in data && data["title"] == JString(title)
    ensures |title| == 0 ==> ValidateItemInput(data) == Aborted(400, RequiredMessage)
    ensures |title| > MaxTitleLength ==> ValidateItemInput(data) == Aborted(400, TooLongMessage)
    ensures ValidateItemInput(data) == Accepted <==> 1 <= |title| <= MaxTitleLength
  {
  }

  /** Acceptance exactly when the title is present, truthy, has a length and
      that length is at most 100. */
  lemma AcceptedIff(data: map<string, Json>)
    ensures ValidateItemInput(data) == Accepted <==>
      && "title" in data
      && Truthy(data["title"])
      && Length(data["title"]).Some?
      && Length(data["title"]).value <= MaxTitleLength
  {
  }

  /** Only the title is inspected: two bodies with the same title entry get
      the same verdict, whatever their description or other keys. */
  lemma OnlyTitleInspected(data1: map<string, Json>, data2: map<string, Json>)
    requires "title" in data1 <==> "title" in data2
    requires "title" in data1 ==> data1["title"] == data2["title"]
    ensures ValidateItemInput(data1) == ValidateItemInput(data2)
  {
  }

  /** In particular, changing or adding the description never changes the
      verdict. */
  lemma DescriptionIgnored(data: map<string, Json>, description: Json)
    ensures ValidateItemInput(data["description" := description]) == ValidateItemInput(data)
  {
    OnlyTitleInspected(data["description" := description], data);
  }
}
