/** The dashboard component's state and its event handlers. Each field is
    one piece of component state; each method is one handler or one inline
    closure of the component, run to completion. A request the handler
    issues is appended to `outbox`; its outcome, and the outcome of the
    re-fetch that follows a successful mutation, are parameters. */
module Dashboard {
  import opened JsValues
  import opened Records
  import opened Grouping
  import opened Requests
  import opened CategoryFilter

  /** What the server answers to a `GET`: the data, or a failure (which the
      component only logs). */
  datatype Response<+T> = Ok(data: T) | Failed

  /** The modal and selection part of the component state, gathered so that
      each handler can say which parts it changes. `formResets` counts the
      calls of `form.resetFields()`. */
  datatype View = View(
    menuModalVisible: bool,
    categoryModalVisible: bool,
    editMenuModalVisible: bool,
    editInfoModalVisible: bool,
    editImageModalVisible: bool,
    editMenu: Option<Menu>,
    editImageMenu: Option<Menu>,
    imageFileList: seq<UploadFile>,
    selectedCategory: string,
    formResets: nat)

  /** `editImageMenu?.id`. */
  function MenuId(m: Option<Menu>): (r: Option<int>)
    ensures r.Some? <==> m.Some?
    ensures r.Some? ==> r.value == m.value.id
  {
    if m.Some? then Some(m.value.id) else None
  }

  /** Whether a `GET /menu` answer replaces the dictionary: it must have
      arrived, and the grouping loop, which runs on a plain object `{}`,
      must not meet a category named after an inherited property (there it
      throws inside `.then`, the `.catch` only logs, and the old dictionary
      stays). */
  predicate Installs(response: Response<seq<Menu>>) {
    response.Ok? && OwnNamesOnly(response.data)
  }

  class App {
    var menusByCategory: Groups
    var categories: seq<Category>
    var menuModalVisible: bool
    var categoryModalVisible: bool
    var selectedCategory: string
    var editMenuModalVisible: bool
    var imageFileList: seq<UploadFile>
    var editMenu: Option<Menu>
    var editImageModalVisible: bool
    var editImageMenu: Option<Menu>
    var editInfoModalVisible: bool
    var formResets: nat
    /** The requests issued so far, in order. */
    var outbox: seq<Request>
    /** The last menu list `GET /menu` delivered whose grouping did not
        throw. */
    ghost var fetched: seq<Menu>

    /** The dictionary always is the grouping of the last fetched list, a
        list whose category names are all own names (any other list makes
        the grouping throw and is never installed), and an edit modal is
        only ever visible with its target menu set. */
    ghost predicate Valid()
      reads this
    {
      && menusByCategory == Grouped(fetched)
      && OwnNamesOnly(fetched)
      && (editInfoModalVisible ==> editMenu.Some?)
      && (editImageModalVisible ==> editImageMenu.Some?)
    }

    function Ui(): View
      reads this
    {
      View(menuModalVisible, categoryModalVisible, editMenuModalVisible, editInfoModalVisible,
           editImageModalVisible, editMenu, editImageMenu, imageFileList, selectedCategory, formResets)
    }

    /** What the page shows follows from the state. Rendering as written
        (the plain-object lookup) throws exactly when a selected fetched
        category is named after an inherited property; otherwise each
        heading lists what `Rendered` lists, and a menu appears under some
        heading exactly when it came with the last fetched list and a fetched
        category with its category's name is selected. */
    lemma PageListsFetched(m: Menu)
      requires Valid()
      ensures (forall j :: 0 <= j < |categories| ==>
                 VisibleAsWritten(menusByCategory, selectedCategory, categories[j].name).Normal?)
          <==> (forall j :: 0 <= j < |categories| && Selected(selectedCategory, categories[j].name) ==>
                 categories[j].name !in InheritedProperties)
      ensures forall j :: (0 <= j < |categories| &&
                           VisibleAsWritten(menusByCategory, selectedCategory, categories[j].name).Normal?) ==>
                VisibleAsWritten(menusByCategory, selectedCategory, categories[j].name).value
                  == Rendered(categories, menusByCategory, selectedCategory)[j]
      ensures (exists j :: 0 <= j < |categories| && m in Rendered(categories, menusByCategory, selectedCategory)[j])
          <==> m in fetched && exists j :: 0 <= j < |categories| && categories[j].name == m.category.name
                                           && Selected(selectedCategory, categories[j].name)
    {
      GroupedIsFilter(fetched);
      forall j | 0 <= j < |categories|
        ensures VisibleAsWritten(menusByCategory, selectedCategory, categories[j].name)
                == if Selected(selectedCategory, categories[j].name) && categories[j].name in InheritedProperties
                   then TypeError else Normal(Rendered(categories, menusByCategory, selectedCategory)[j])
      {
        var name := categories[j].name;
        VisibleAsWrittenThrows(menusByCategory, selectedCategory, name);
      }
      assert Rendered(categories, menusByCategory, selectedCategory)
          == Rendered(categories, Grouped(fetched), selectedCategory);
      ShownExactly(fetched, categories, selectedCategory, m);
    }

    /** A visible edit modal always has its target: a submit from the
        edit-info modal addresses `editMenu`'s own id (never
        `/menu/undefined`), and the image modal's Save button sees a defined
        `editImageMenu?.id`. */
    lemma OpenModalsHaveTargets(values: Obj)
      requires Valid()
      ensures editInfoModalVisible ==>
                editMenu.Some? && ParseInt(UpdateInfoRequest(editMenu, values).path[1]) == Some(editMenu.value.id)
      ensures editImageModalVisible ==> MenuId(editImageMenu) == Some(editImageMenu.value.id)
    {
    }

    /** The initial state: no data, every modal closed, everything shown. */
    constructor ()
      ensures Valid()
      ensures menusByCategory == map[] && categories == [] && outbox == [] && fetched == []
      ensures Ui() == View(false, false, false, false, false, None, None, [], "all", 0)
    {
      menusByCategory := map[];
      categories := [];
      menuModalVisible := false;
      categoryModalVisible := false;
      selectedCategory := "all";
      editMenuModalVisible := false;
      imageFileList := [];
      editMenu := None;
      editImageModalVisible := false;
      editImageMenu := None;
      editInfoModalVisible := false;
      formResets := 0;
      outbox := [];
      fetched := [];
    }

    /** An axios call leaving the component: the request is recorded and
        nothing else changes until it settles. */
    method Issue(request: Request)
      requires Valid()
      modifies this
      ensures Valid()
      ensures outbox == old(outbox) + [request]
      ensures Ui() == old(Ui()) && menusByCategory == old(menusByCategory) && fetched == old(fetched)
      ensures categories == old(categories)
    {
      outbox := outbox + [request];
    }

    /** `fetchMenus`: `GET /menu`, then replace the dictionary by the
        grouping of the answer. When the request fails, or when the loop
        throws on a category named after an inherited property, nothing but
        the request changes. */
    method FetchMenus(response: Response<seq<Menu>>)
      requires Valid()
      modifies this
      ensures Valid()
      ensures outbox == old(outbox) + [ListMenus]
      ensures Installs(response) ==> fetched == response.data && menusByCategory == Grouped(response.data)
      ensures !Installs(response) ==> fetched == old(fetched) && menusByCategory == old(menusByCategory)
      ensures response.Ok? && !OwnNamesOnly(response.data) ==> GroupedAsWritten(response.data).TypeError?
      ensures categories == old(categories) && Ui() == old(Ui())
    {
      outbox := outbox + [ListMenus];
      if response.Ok? {
        GroupedAsWrittenThrows(response.data);
        if OwnNamesOnly(response.data) {
          menusByCategory := GroupByCategory(response.data);
          fetched := response.data;
        }
      }
    }

    /** `fetchCategories`: `GET /category`, then replace the categories. */
    method FetchCategories(response: Response<seq<Category>>)
      requires Valid()
      modifies this
      ensures Valid()
      ensures outbox == old(outbox) + [ListCategories]
      ensures categories == if response.Ok? then response.data else old(categories)
      ensures menusByCategory == old(menusByCategory) && fetched == old(fetched) && Ui() == old(Ui())
    {
      outbox := outbox + [ListCategories];
      if response.Ok? {
        categories := response.data;
      }
    }

    /** The success callback of `handleAddMenu`: re-fetch the menus, close
        the add-item modal, reset the form. */
    method AddMenuSucceeded(refetch: Response<seq<Menu>>)
      requires Valid()
      modifies this
      ensures Valid()
      ensures outbox == old(outbox) + [ListMenus]
      ensures Ui() == old(Ui()).(menuModalVisible := false, formResets := old(formResets) + 1)
      ensures menusByCategory == if Installs(refetch) then Grouped(refetch.data) else old(menusByCategory)
      ensures fetched == if Installs(refetch) then refetch.data else old(fetched)
      ensures categories == old(categories)
    {
      menuModalVisible := false;
      formResets := formResets + 1;
      FetchMenus(refetch);
    }

    /** The success callback of `handleAddCategory`: re-fetch the categories
        only, close the category modal, reset the form. */
    method AddCategorySucceeded(refetch: Response<seq<Category>>)
      requires Valid()
      modifies this
      ensures Valid()
      ensures outbox == old(outbox) + [ListCategories]
      ensures Ui() == old(Ui()).(categoryModalVisible := false, formResets := old(formResets) + 1)
      ensures categories == if refetch.Ok? then refetch.data else old(categories)
      ensures menusByCategory == old(menusByCategory) && fetched == old(fetched)
    {
      categoryModalVisible := false;
      formResets := formResets + 1;
      FetchCategories(refetch);
    }

    /** The success callback of `handleUpdateInfo`: re-fetch the menus, clear
        `editMenuModalVisible` (not the flag of the edit-info modal), reset
        the form. */
    method UpdateInfoSucceeded(refetch: Response<seq<Menu>>)
      requires Valid()
      modifies this
      ensures Valid()
      ensures outbox == old(outbox) + [ListMenus]
      ensures Ui() == old(Ui()).(editMenuModalVisible := false, formResets := old(formResets) + 1)
      ensures menusByCategory == if Installs(refetch) then Grouped(refetch.data) else old(menusByCategory)
      ensures fetched == if Installs(refetch) then refetch.data else old(fetched)
      ensures categories == old(categories)
    {
      editMenuModalVisible := false;
      formResets := formResets + 1;
      FetchMenus(refetch);
    }

    /** The success callback of `handleImageChange`: re-fetch the menus,
        close the image modal, clear the staged file list. */
    method ImageChangeSucceeded(refetch: Response<seq<Menu>>)
      requires Valid()
      modifies this
      ensures Valid()
      ensures outbox == old(outbox) + [ListMenus]
      ensures Ui() == old(Ui()).(editImageModalVisible := false, imageFileList := [])
      ensures menusByCategory == if Installs(refetch) then Grouped(refetch.data) else old(menusByCategory)
      ensures fetched == if Installs(refetch) then refetch.data else old(fetched)
      ensures categories == old(categories)
    {
      editImageModalVisible := false;
      imageFileList := [];
      FetchMenus(refetch);
    }

    /** `handleAddMenu`: post the new item; on success re-fetch the menus,
        close the add-item modal and reset the form. Without a selected
        file the handler throws before any request and nothing changes;
        on a failed post only the request is recorded. */
    method HandleAddMenu(values: Obj, posted: bool, refetch: Response<seq<Menu>>) returns (threw: bool)
      requires Valid() && AddMenuFormShaped(values)
      modifies this
      ensures Valid()
      ensures threw <==> !HasFirstFile(values)
      ensures threw ==>
                outbox == old(outbox) && Ui() == old(Ui()) && menusByCategory == old(menusByCategory)
                && fetched == old(fetched)
      ensures !threw && !posted ==>
                outbox == old(outbox) + [AddMenuRequest(values).value] && Ui() == old(Ui())
                && menusByCategory == old(menusByCategory) && fetched == old(fetched)
      ensures !threw && posted ==>
                && outbox == old(outbox) + [AddMenuRequest(values).value, ListMenus]
                && Ui() == old(Ui()).(menuModalVisible := false, formResets := old(formResets) + 1)
                && (Installs(refetch) ==> fetched == refetch.data && menusByCategory == Grouped(refetch.data))
                && (!Installs(refetch) ==> fetched == old(fetched) && menusByCategory == old(menusByCategory))
      ensures categories == old(categories)
    {
      var request := AddMenuRequest(values);
      if request.TypeError? {
        return true;
      }
      threw := false;
      outbox := outbox + [request.value];
      if posted {
        AddMenuSucceeded(refetch);
      }
    }

    /** `handleAddCategory`: post the category; on success re-fetch only the
        categories, close the category modal and reset the form. The menu
        dictionary is never touched. */
    method HandleAddCategory(values: Obj, posted: bool, refetch: Response<seq<Category>>)
      requires Valid()
      modifies this
      ensures Valid()
      ensures outbox == old(outbox) + [AddCategoryRequest(values)] + (if posted then [ListCategories] else [])
      ensures menusByCategory == old(menusByCategory) && fetched == old(fetched)
      ensures !posted ==> Ui() == old(Ui()) && categories == old(categories)
      ensures posted ==>
                && Ui() == old(Ui()).(categoryModalVisible := false, formResets := old(formResets) + 1)
                && categories == if refetch.Ok? then refetch.data else old(categories)
    {
      outbox := outbox + [AddCategoryRequest(values)];
      if posted {
        AddCategorySucceeded(refetch);
      }
    }

    /** `handleCategoryChange`: the selection is the only thing that changes;
        the dictionary stays as it is. */
    method HandleCategoryChange(value: string)
      requires Valid()
      modifies this
      ensures Valid()
      ensures Ui() == old(Ui()).(selectedCategory := value)
      ensures menusByCategory == old(menusByCategory) && categories == old(categories)
      ensures outbox == old(outbox) && fetched == old(fetched)
    {
      selectedCategory := value;
    }

    /** `handleOpenEditModal`: remember the card's menu and show the
        edit-info modal. */
    method HandleOpenEditModal(menu: Menu)
      requires Valid()
      modifies this
      ensures Valid()
      ensures Ui() == old(Ui()).(editMenu := Some(menu), editInfoModalVisible := true)
      ensures menusByCategory == old(menusByCategory) && categories == old(categories)
      ensures outbox == old(outbox) && fetched == old(fetched)
    {
      editMenu := Some(menu);
      editInfoModalVisible := true;
    }

    /** `handleCloseEditModal`: hide the edit-info modal; `editMenu` stays. */
    method HandleCloseEditModal()
      requires Valid()
      modifies this
      ensures Valid()
      ensures Ui() == old(Ui()).(editInfoModalVisible := false)
      ensures menusByCategory == old(menusByCategory) && categories == old(categories)
      ensures outbox == old(outbox) && fetched == old(fetched)
    {
      editInfoModalVisible := false;
    }

    /** `handleUpdateInfo`: send `{...editMenu, ...values}` to
        `PUT /menu/{editMenu.id}`; on success re-fetch the menus, reset the
        form and clear `editMenuModalVisible`, a flag no modal shows: the
        edit-info modal stays open. */
    method HandleUpdateInfo(values: Obj, posted: bool, refetch: Response<seq<Menu>>) returns (request: Request)
      requires Valid()
      modifies this
      ensures Valid()
      ensures request == UpdateInfoRequest(old(editMenu), values)
      ensures editInfoModalVisible == old(editInfoModalVisible) && editMenu == old(editMenu)
      ensures outbox == old(outbox) + [request] + (if posted then [ListMenus] else [])
      ensures !posted ==> Ui() == old(Ui()) && menusByCategory == old(menusByCategory) && fetched == old(fetched)
      ensures posted ==> Ui() == old(Ui()).(editMenuModalVisible := false, formResets := old(formResets) + 1)
      ensures posted && Installs(refetch) ==> fetched == refetch.data && menusByCategory == Grouped(refetch.data)
      ensures posted && !Installs(refetch) ==> fetched == old(fetched) && menusByCategory == old(menusByCategory)
      ensures categories == old(categories)
    {
      request := UpdateInfoRequest(editMenu, values);
      Issue(request);
      if posted {
        UpdateInfoSucceeded(refetch);
      }
    }

    /** `handleImageChange`: only when the id is truthy and the first list
        entry wraps a file is `PUT /menu/{id}/image` sent; on success the
        menus are re-fetched, the image modal closes and the list is
        cleared. */
    method HandleImageChange(id: Option<int>, fileList: seq<UploadFile>, posted: bool,
                             refetch: Response<seq<Menu>>)
      requires Valid()
      modifies this
      ensures Valid()
      ensures !ImageGuard(id, fileList) ==>
                outbox == old(outbox) && Ui() == old(Ui()) && menusByCategory == old(menusByCategory)
                && fetched == old(fetched)
      ensures ImageGuard(id, fileList) && !posted ==>
                outbox == old(outbox) + [ImageRequest(id, fileList).value] && Ui() == old(Ui())
                && menusByCategory == old(menusByCategory) && fetched == old(fetched)
      ensures ImageGuard(id, fileList) && posted ==>
                && outbox == old(outbox) + [ImageRequest(id, fileList).value, ListMenus]
                && Ui() == old(Ui()).(editImageModalVisible := false, imageFileList := [])
                && (Installs(refetch) ==> fetched == refetch.data && menusByCategory == Grouped(refetch.data))
                && (!Installs(refetch) ==> fetched == old(fetched) && menusByCategory == old(menusByCategory))
      ensures categories == old(categories)
    {
      var request := ImageRequest(id, fileList);
      if request.Some? {
        outbox := outbox + [request.value];
        if posted {
          ImageChangeSucceeded(refetch);
        }
      }
    }

    /** `handleOpenEditImageModal`: remember the card's menu and show the
        image modal. */
    method HandleOpenEditImageModal(menu: Menu)
      requires Valid()
      modifies this
      ensures Valid()
      ensures Ui() == old(Ui()).(editImageMenu := Some(menu), editImageModalVisible := true)
      ensures menusByCategory == old(menusByCategory) && categories == old(categories)
      ensures outbox == old(outbox) && fetched == old(fetched)
    {
      editImageMenu := Some(menu);
      editImageModalVisible := true;
    }

    /** The "Add Menu Item" button. */
    method OpenAddMenu()
      requires Valid()
      modifies this
      ensures Valid()
      ensures Ui() == old(Ui()).(menuModalVisible := true)
      ensures menusByCategory == old(menusByCategory) && categories == old(categories)
      ensures outbox == old(outbox) && fetched == old(fetched)
    {
      menuModalVisible := true;
    }

    /** The "Add Category" button. */
    method OpenAddCategory()
      requires Valid()
      modifies this
      ensures Valid()
      ensures Ui() == old(Ui()).(categoryModalVisible := true)
      ensures menusByCategory == old(menusByCategory) && categories == old(categories)
      ensures outbox == old(outbox) && fetched == old(fetched)
    {
      categoryModalVisible := true;
    }

    /** Cancelling the add-item modal: hide it and reset the form. */
    method CancelAddMenu()
      requires Valid()
      modifies this
      ensures Valid()
      ensures Ui() == old(Ui()).(menuModalVisible := false, formResets := old(formResets) + 1)
      ensures menusByCategory == old(menusByCategory) && categories == old(categories)
      ensures outbox == old(outbox) && fetched == old(fetched)
    {
      menuModalVisible := false;
      formResets := formResets + 1;
    }

    /** Cancelling the add-category modal: hide it and reset the form. */
    method CancelAddCategory()
      requires Valid()
      modifies this
      ensures Valid()
      ensures Ui() == old(Ui()).(categoryModalVisible := false, formResets := old(formResets) + 1)
      ensures menusByCategory == old(menusByCategory) && categories == old(categories)
      ensures outbox == old(outbox) && fetched == old(fetched)
    {
      categoryModalVisible := false;
      formResets := formResets + 1;
    }

    /** Cancelling the image modal: hide it and reset the form; the staged
        file list is kept. */
    method CancelEditImage()
      requires Valid()
      modifies this
      ensures Valid()
      ensures Ui() == old(Ui()).(editImageModalVisible := false, formResets := old(formResets) + 1)
      ensures menusByCategory == old(menusByCategory) && categories == old(categories)
      ensures outbox == old(outbox) && fetched == old(fetched)
    {
      editImageModalVisible := false;
      formResets := formResets + 1;
    }

    /** The image modal's Save button: when `editImageMenu.id` is truthy,
        run `handleImageChange` on the staged list; then close the modal in
        every case, whether or not a request was sent or succeeded. */
    method SaveEditImage(posted: bool, refetch: Response<seq<Menu>>)
      requires Valid()
      modifies this
      ensures Valid()
      ensures !editImageModalVisible
      ensures var id := MenuId(old(editImageMenu));
              var sent := ImageGuard(id, old(imageFileList));
              && outbox == old(outbox) + (if sent then [ImageRequest(id, old(imageFileList)).value] else [])
                                       + (if sent && posted then [ListMenus] else [])
              && Ui() == old(Ui()).(editImageModalVisible := false,
                                    imageFileList := if sent && posted then [] else old(imageFileList))
              && (sent && posted && Installs(refetch) ==> fetched == refetch.data && menusByCategory == Grouped(refetch.data))
              && (!(sent && posted && Installs(refetch)) ==> fetched == old(fetched) && menusByCategory == old(menusByCategory))
      ensures categories == old(categories)
    {
      var id := MenuId(editImageMenu);
      if Truthy(id) {
        HandleImageChange(id, imageFileList, posted, refetch);
      }
      editImageModalVisible := false;
    }

    /** The image modal's upload widget: stage the new file list. */
    method UploadChange(fileList: seq<UploadFile>)
      requires Valid()
      modifies this
      ensures Valid()
      ensures Ui() == old(Ui()).(imageFileList := fileList)
      ensures menusByCategory == old(menusByCategory) && categories == old(categories)
      ensures outbox == old(outbox) && fetched == old(fetched)
    {
      imageFileList := fileList;
    }
  }
}
