/** The HTTP requests the dashboard issues, and how each mutation handler
    builds its request from the submitted form values. A request is a value:
    the verb, the path below the backend URL as segments, and the body. */
module Requests {
  import opened JsValues
  import opened Records

  const BackendUrl: string := "http://localhost:8080/api"

  datatype Verb = HttpGet | HttpPost | HttpPut

  /** What one part of a multipart body holds: a file, a text (what
      `FormData.append` makes of `undefined`), or a JSON-serialised object. */
  datatype PartContent = FilePart(file: FileObj) | TextPart(text: string) | JsonPart(fields: Obj)

  datatype Part = Part(name: string, content: PartContent)

  datatype Body = NoBody | Json(fields: Obj) | Multipart(parts: seq<Part>)

  datatype Request = Request(verb: Verb, path: seq<string>, body: Body)

  /** The full URL of a request path. */
  function Url(path: seq<string>): (u: string)
    ensures |u| >= |BackendUrl| && u[..|BackendUrl|] == BackendUrl
  {
    if path == [] then BackendUrl else Url(path[..|path| - 1]) + "/" + path[|path| - 1]
  }

  /** The URL of a path of one, two or three segments: the backend URL
      followed by each segment after a slash. */
  lemma UrlSegments(a: string, b: string, c: string)
    ensures Url([a]) == BackendUrl + "/" + a
    ensures Url([a, b]) == BackendUrl + "/" + a + "/" + b
    ensures Url([a, b, c]) == BackendUrl + "/" + a + "/" + b + "/" + c
  {
    assert [a][..0] == [];
    assert [a, b][..1] == [a];
    assert [a, b, c][..2] == [a, b];
  }

  /** `GET /menu` and `GET /category`. */
  const ListMenus: Request := Request(HttpGet, ["menu"], NoBody)
  const ListCategories: Request := Request(HttpGet, ["category"], NoBody)

  /** The two list requests address `${BackendUrl}/menu` and
      `${BackendUrl}/category`. */
  lemma ListUrls()
    ensures ListMenus.verb == HttpGet && Url(ListMenus.path) == BackendUrl + "/menu"
    ensures ListCategories.verb == HttpGet && Url(ListCategories.path) == BackendUrl + "/category"
  {
    UrlSegments("menu", "", "");
    UrlSegments("category", "", "");
  }

  // ---------------------------------------------------------------------
  // Add item

  /** The destructuring `const {img, categoryId, ...menu} = values`. */
  datatype AddMenuFields = AddMenuFields(img: Value, categoryId: Value, menu: Obj)

  function SplitAddMenu(values: Obj): (r: AddMenuFields)
    ensures r.img == Get(values, "img") && r.categoryId == Get(values, "categoryId")
    ensures r.menu.Keys == values.Keys - {"img", "categoryId"}
    ensures forall k :: k in r.menu ==> r.menu[k] == values[k]
  {
    AddMenuFields(Get(values, "img"), Get(values, "categoryId"), values - {"img", "categoryId"})
  }

  /** Puts the destructured fields back together: the inverse of
      `SplitAddMenu` (an `undefined` field reads the same as a missing one). */
  function JoinAddMenu(f: AddMenuFields): Obj {
    var withImg := if f.img == Undefined then f.menu else f.menu["img" := f.img];
    if f.categoryId == Undefined then withImg else withImg["categoryId" := f.categoryId]
  }

  /** Splitting loses nothing: every submitted field lands in exactly one
      of `img`, `categoryId` and `menu`. */
  lemma SplitAddMenuRoundTrip(values: Obj)
    requires "img" in values ==> values["img"] != Undefined
    requires "categoryId" in values ==> values["categoryId"] != Undefined
    ensures JoinAddMenu(SplitAddMenu(values)) == values
  {
    var j := JoinAddMenu(SplitAddMenu(values));
    assert j.Keys == values.Keys;
  }

  /** The add-item form hands over its `img` field as the upload list, or
      `undefined` when no file was ever chosen. */
  predicate AddMenuFormShaped(values: Obj) {
    Get(values, "img") == Undefined || Get(values, "img").Files?
  }

  /** Whether `img[0].originFileObj` can be evaluated: `img` is a non-empty
      list. Otherwise indexing `undefined` or reading a property of the
      missing first entry throws. */
  predicate HasFirstFile(values: Obj) {
    Get(values, "img").Files? && |Get(values, "img").files| > 0
  }

  /** The request `handleAddMenu` posts: `POST /menu/{categoryId}` with a
      part `img` holding the first selected file and a part `menu` holding
      the remaining fields as JSON. */
  function AddMenuRequest(values: Obj): (r: Completion<Request>)
    requires AddMenuFormShaped(values)
    ensures r.Normal? <==> HasFirstFile(values)
    ensures r.Normal? ==>
      var req := r.value;
      && req.verb == HttpPost && |req.path| == 2 && req.path[0] == "menu"
      && (Get(values, "categoryId").Num? ==> ParseInt(req.path[1]) == Some(Get(values, "categoryId").n))
      && req.body.Multipart? && |req.body.parts| == 2
      && req.body.parts[0].name == "img" && req.body.parts[1].name == "menu"
      && (var first := values["img"].files[0];
          req.body.parts[0].content == if first.originFileObj.Some? then FilePart(first.originFileObj.value)
                                       else TextPart(UndefinedText))
      && req.body.parts[1].content.JsonPart?
      && (var sent := req.body.parts[1].content.fields;
          && sent.Keys == (set k | k in values && values[k] != Undefined) - {"img", "categoryId"}
          && forall k :: k in sent ==> sent[k] == values[k])
    ensures r.Normal? ==> Url(r.value.path) == BackendUrl + "/menu/" + Render(Get(values, "categoryId"))
  {
    var f := SplitAddMenu(values);
    if !HasFirstFile(values) then TypeError
    else
      UrlSegments("menu", Render(f.categoryId), "");
      var first := f.img.files[0];
      var img := if first.originFileObj.Some? then FilePart(first.originFileObj.value)
                 else TextPart(UndefinedText);
      Normal(Request(HttpPost, ["menu", Render(f.categoryId)],
                     Multipart([Part("img", img), Part("menu", JsonPart(Jsonable(f.menu)))])))
  }

  // ---------------------------------------------------------------------
  // Add category

  /** `POST /category` with the submitted values as the JSON body. */
  function AddCategoryRequest(values: Obj): (r: Request)
    ensures r.verb == HttpPost && r.path == ["category"] && r.body.Json?
    ensures r.body.fields.Keys == set k | k in values && values[k] != Undefined
    ensures forall k :: k in r.body.fields ==> r.body.fields[k] == values[k]
    ensures Url(r.path) == BackendUrl + "/category"
  {
    UrlSegments("category", "", "");
    Request(HttpPost, ["category"], Json(Jsonable(values)))
  }

  // ---------------------------------------------------------------------
  // Edit info

  /** `{...editMenu, ...values}`: spreading `null` contributes nothing. */
  function EditPayload(editMenu: Option<Menu>, values: Obj): (r: Obj)
    ensures editMenu.Some? ==> r.Keys == MenuKeys + values.Keys
    ensures editMenu.None? ==> r == values
    ensures forall k :: k in values ==> r[k] == values[k]
    ensures editMenu.Some? ==> forall k :: k in MenuKeys && k !in values ==> r[k] == MenuObj(editMenu.value)[k]
  {
    match editMenu
    case None => Spread(map[], values)
    case Some(m) => Spread(MenuObj(m), values)
  }

  /** `editMenu?.id`. */
  function IdOf(m: Option<Menu>): Value {
    if m.Some? then Num(m.value.id) else Undefined
  }

  /** The request `handleUpdateInfo` sends: `PUT /menu/{editMenu.id}` with
      the merged record as the JSON body. */
  function UpdateInfoRequest(editMenu: Option<Menu>, values: Obj): (r: Request)
    ensures r.verb == HttpPut && |r.path| == 2 && r.path[0] == "menu" && r.body.Json?
    ensures editMenu.Some? ==> ParseInt(r.path[1]) == Some(editMenu.value.id)
    ensures r.body.fields == Jsonable(EditPayload(editMenu, values))
    ensures Url(r.path) == BackendUrl + "/menu/" + Render(IdOf(editMenu))
  {
    UrlSegments("menu", Render(IdOf(editMenu)), "");
    Request(HttpPut, ["menu", Render(IdOf(editMenu))], Json(Jsonable(EditPayload(editMenu, values))))
  }

  /** With no `editMenu`, `${editMenu?.id}` renders as "undefined": the
      request goes to `/menu/undefined` with the submitted values alone. */
  lemma UpdateInfoWithoutTarget(values: Obj)
    ensures UpdateInfoRequest(None, values).path == ["menu", UndefinedText]
    ensures Url(UpdateInfoRequest(None, values).path) == BackendUrl + "/menu/" + UndefinedText
    ensures UpdateInfoRequest(None, values).body == Json(Jsonable(values))
  {
  }

  /** The edit-info form submits some of `name`, `description` and
      `price`, each with a value of its field's type. */
  predicate EditValues(values: Obj) {
    && values.Keys <= {"name", "description", "price"}
    && ("name" in values ==> values["name"].Str?)
    && ("description" in values ==> values["description"].Str?)
    && ("price" in values ==> values["price"].Num?)
  }

  /** Reference meaning of an edit: the menu with each submitted field
      overwritten and every other field kept. */
  function Edited(m: Menu, values: Obj): Menu
    requires EditValues(values)
  {
    m.(name := if "name" in values then values["name"].s else m.name,
       description := if "description" in values then values["description"].s else m.description,
       price := if "price" in values then values["price"].n else m.price)
  }

  /** The record the server receives reads as the edited menu: the submitted
      fields overwrite, and `id`, `psize`, `img` and `category` are carried
      over from `editMenu` unchanged. */
  lemma EditPayloadIsEdit(m: Menu, values: Obj)
    requires EditValues(values)
    ensures DecodeMenu(Jsonable(EditPayload(Some(m), values))) == Some(Edited(m, values))
    ensures var e := Edited(m, values);
            e.id == m.id && e.psize == m.psize && e.img == m.img && e.category == m.category
  {
    EditPayloadIsMenuObj(m, values);
    JsonableKeepsDefined(MenuObj(Edited(m, values)));
    MenuObjRoundTrip(Edited(m, values));
  }

  /** The submitted fields are all menu properties, so the merge is the
      object of the edited menu, with no property added. */
  lemma EditPayloadIsMenuObj(m: Menu, values: Obj)
    requires EditValues(values)
    ensures EditPayload(Some(m), values) == MenuObj(Edited(m, values))
  {
    MergeIsMenuObj(m, values);
  }

  /** The same, stated on the map union the spread denotes. */
  lemma MergeIsMenuObj(m: Menu, values: Obj)
    requires EditValues(values)
    ensures MenuObj(m) + values == MenuObj(Edited(m, values))
  {
  }

  /** Submitting only a price changes only the price. */
  lemma PriceOnlyEdit(m: Menu, p: int)
    ensures DecodeMenu(Jsonable(EditPayload(Some(m), map["price" := Num(p)]))) == Some(m.(price := p))
  {
    EditPayloadIsEdit(m, map["price" := Num(p)]);
  }

  // ---------------------------------------------------------------------
  // Edit image

  /** JavaScript truthiness of an id of type `number | undefined` (NaN
      does not occur). */
  predicate Truthy(id: Option<int>) {
    id.Some? && id.value != 0
  }

  /** The guards of `handleImageChange`: a truthy id, a non-empty file list,
      and a first entry that wraps a file. */
  predicate ImageGuard(id: Option<int>, fileList: seq<UploadFile>) {
    Truthy(id) && |fileList| > 0 && fileList[0].originFileObj.Some?
  }

  /** The request `handleImageChange` sends, if any: `PUT /menu/{id}/image`
      with a single part `img` holding the first file. */
  function ImageRequest(id: Option<int>, fileList: seq<UploadFile>): (r: Option<Request>)
    ensures r.Some? <==> ImageGuard(id, fileList)
    ensures r.Some? ==>
      && r.value.verb == HttpPut && |r.value.path| == 3
      && r.value.path[0] == "menu" && ParseInt(r.value.path[1]) == id && r.value.path[2] == "image"
      && r.value.body == Multipart([Part("img", FilePart(fileList[0].originFileObj.value))])
    ensures r.Some? ==> Url(r.value.path) == BackendUrl + "/menu/" + IntToString(id.value) + "/image"
  {
    if ImageGuard(id, fileList) then
      IntToStringRoundTrip(id.value);
      UrlSegments("menu", IntToString(id.value), "image");
      Some(Request(HttpPut, ["menu", IntToString(id.value), "image"],
                   Multipart([Part("img", FilePart(fileList[0].originFileObj.value))])))
    else None
  }
}
