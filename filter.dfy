/** The category filter of the dashboard: which grouped menus are listed
    under each category heading, given the selection `'all'` or a category
    name. */
module CategoryFilter {
  import opened JsValues
  import opened Records
  import opened Grouping

  /** The selection value that shows every category. */
  const All: string := "all"

  /** Whether the heading of category `name` lists its menus. */
  predicate Selected(selected: string, name: string) {
    selected == All || selected == name
  }

  /** The menus listed under the heading of category `name`: its bucket,
      or nothing when the bucket is missing or the category is not selected. */
  function Visible(groups: Groups, selected: string, name: string): seq<Menu> {
    if Selected(selected, name) && name in groups then groups[name] else []
  }

  /** The dashboard body: one list per fetched category, in the order of the
      categories. */
  function Rendered(categories: seq<Category>, groups: Groups, selected: string): (r: seq<seq<Menu>>)
    ensures |r| == |categories|
    ensures forall j :: 0 <= j < |r| ==> r[j] == Visible(groups, selected, categories[j].name)
  {
    seq(|categories|, j requires 0 <= j < |categories| => Visible(groups, selected, categories[j].name))
  }

  /** Over a grouping of the fetched menus, a heading lists exactly the
      menus of its category, in response order, when the category is
      selected, and nothing otherwise. */
  lemma VisibleIsFilter(s: seq<Menu>, selected: string, name: string)
    ensures Visible(Grouped(s), selected, name) ==
              if Selected(selected, name) then MenusNamed(s, name) else []
    ensures forall m :: m in Visible(Grouped(s), selected, name) ==> m.category.name == name
  {
    GroupedIsFilter(s);
    if name !in Grouped(s) {
      MenusNamedEmpty(s, name);
    }
    forall m | m in Visible(Grouped(s), selected, name) ensures m.category.name == name {
      MenusNamedCount(s, name, m);
    }
  }

  /** A fetched menu is listed on the dashboard exactly when some fetched
      category carries its category's name and that category is selected.
      A menu whose category name matches no fetched category is never shown. */
  lemma ShownExactly(s: seq<Menu>, categories: seq<Category>, selected: string, m: Menu)
    ensures (exists j :: 0 <= j < |categories| && m in Rendered(categories, Grouped(s), selected)[j])
        <==> m in s && exists j :: 0 <= j < |categories| && categories[j].name == m.category.name
                                  && Selected(selected, categories[j].name)
  {
    var r := Rendered(categories, Grouped(s), selected);
    forall j | 0 <= j < |categories|
      ensures m in r[j] <==> m in s && categories[j].name == m.category.name && Selected(selected, categories[j].name)
    {
      VisibleIsFilter(s, selected, categories[j].name);
      MenusNamedCount(s, categories[j].name, m);
    }
  }

  // ---------------------------------------------------------------------
  // The lookup as written, on a plain object

  /** `menusByCategory[category.name]?.map(...)` on a plain object: a
      missing own property reads as `undefined` and renders nothing, but an
      inherited one reads as a function (or the prototype), whose `.map` is
      `undefined`; calling it throws. */
  function VisibleAsWritten(groups: Groups, selected: string, name: string): Completion<seq<Menu>> {
    if !Selected(selected, name) then Normal([])
    else if name in groups then Normal(groups[name])
    else if name in InheritedProperties then TypeError
    else Normal([])
  }

  /** Rendering as written agrees with `Visible` except for a selected
      category named after an inherited property that has no bucket. */
  lemma VisibleAsWrittenThrows(groups: Groups, selected: string, name: string)
    ensures VisibleAsWritten(groups, selected, name) ==
              if Selected(selected, name) && name !in groups && name in InheritedProperties
              then TypeError else Normal(Visible(groups, selected, name))
  {
  }

  /** A category named "toString" with no menus: the dashboard as written
      throws while rendering it under the default selection. */
  lemma ToStringCategoryCrashesRender()
    ensures VisibleAsWritten(map[], All, "toString") == TypeError
    ensures Visible(map[], All, "toString") == []
  {
  }
}
