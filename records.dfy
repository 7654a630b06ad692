/** The two records the dashboard receives from the server, and their shape
    as plain JavaScript objects (which is what the edit-info request spreads
    and sends back). */
module Records {
  import opened JsValues

  datatype Category = Category(id: int, name: string)

  /** A menu item. `price` carries no arithmetic here and is an integer;
      `psize` is the item's size label; `img` is the image URL. */
  datatype Menu = Menu(
    id: int,
    name: string,
    description: string,
    price: int,
    psize: string,
    img: string,
    category: Category)

  /** The property names a menu object carries. */
  const MenuKeys: set<string> := {"id", "name", "description", "price", "psize", "img", "category"}

  function CategoryObj(c: Category): (o: Obj)
    ensures o.Keys == {"id", "name"}
  {
    map["id" := Num(c.id), "name" := Str(c.name)]
  }

  /** A menu as the plain object the server sent. */
  function MenuObj(m: Menu): (o: Obj)
    ensures o.Keys == MenuKeys
    ensures forall k :: k in o ==> o[k] != Undefined
  {
    map["id" := Num(m.id), "name" := Str(m.name), "description" := Str(m.description),
        "price" := Num(m.price), "psize" := Str(m.psize), "img" := Str(m.img),
        "category" := Record(CategoryObj(m.category))]
  }

  function DecodeCategory(v: Value): Option<Category> {
    if v.Record? && Get(v.fields, "id").Num? && Get(v.fields, "name").Str?
    then Some(Category(v.fields["id"].n, v.fields["name"].s))
    else None
  }

  /** Reads a plain object back as a menu, when each of the menu's
      properties is present with the right kind of value. Other properties
      are ignored. */
  function DecodeMenu(o: Obj): Option<Menu> {
    if && Get(o, "id").Num? && Get(o, "name").Str? && Get(o, "description").Str?
       && Get(o, "price").Num? && Get(o, "psize").Str? && Get(o, "img").Str?
       && DecodeCategory(Get(o, "category")).Some?
    then Some(Menu(o["id"].n, o["name"].s, o["description"].s, o["price"].n,
                   o["psize"].s, o["img"].s, DecodeCategory(o["category"]).value))
    else None
  }

  /** Writing a menu as an object and reading it back gives the menu. */
  lemma MenuObjRoundTrip(m: Menu)
    ensures DecodeMenu(MenuObj(m)) == Some(m)
  {
    var o := MenuObj(m);
    assert o["category"] == Record(CategoryObj(m.category));
    assert DecodeCategory(o["category"]) == Some(m.category);
  }
}
