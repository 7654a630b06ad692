# SelfiePizza admin dashboard — a Dafny model of its data orchestration

The dashboard (`src/App.tsx`) is a single React component over a REST
backend that manages menu items and their categories. The part modelled here
is the logic underneath the rendering:

- the grouping of the fetched menu list into the `menusByCategory`
  dictionary (module `Grouping`);
- the category filter that decides what is listed under each category
  heading (module `CategoryFilter`);
- the requests the four mutation handlers build: add item, add category,
  edit info and edit image (module `Requests`). The JavaScript values they
  take apart and merge are modelled in modules `JsValues` and `Records`;
- the component state and its handlers, as class `Dashboard.App`.

Plain JavaScript objects are maps from property names to values. The spread
`{...a, ...b}` is map union and the rest-destructuring
`{img, categoryId, ...menu}` is map subtraction. `JSON.stringify` drops the
properties whose value is `undefined`.

The network is an oracle. Each handler appends the request it issues to
`outbox` and takes the outcome as parameters. `posted` says whether the
mutation succeeded. `refetch` is the answer to the re-fetch that a
successful mutation starts. A handler runs to completion, and its effect is
the state once both promises have settled.

The ghost field `fetched` records the last list `GET /menu` delivered whose
grouping did not throw. The class invariant `Valid()` states four things:
- `menusByCategory` is always `Grouped(fetched)`;
- no category name in `fetched` is an inherited `Object.prototype` property;
- the edit-info modal is only visible with `editMenu` set;
- the image modal is only visible with `editImageMenu` set.

Every handler preserves this invariant. Each handler's contract also says
what the new state is: which fields change, including `fetched`, and to what.

The source has several quirks, and the model keeps each of them:
- On success, edit-info clears `editMenuModalVisible`, a flag no modal
  shows, so its own modal stays open.
- The image modal's Save button always closes the modal.
- The image Save button keeps the staged file list unless the upload
  succeeded.
- A successful add-category re-fetches only the categories.
- The id guard in `handleImageChange` uses JavaScript truthiness, so a menu
  with id 0 cannot have its image replaced.
- `fetchMenus` groups the answer on a plain object `{}`. If a category is
  named after an inherited property such as "constructor", the loop throws
  and the `.catch` only logs, so the dictionary and `fetched` keep their old
  values (`Installs` is false for such an answer). "## Findings" below
  describes this bug.

## Model

| member | source | states |
|---|---|---|
| `JsValues.Spread` | src/App.tsx:133 | the spread keeps every property of the second object and every property of the first that the second lacks, with those values |
| `JsValues.Jsonable` | src/App.tsx:84 | the JSON-serialised object has exactly the properties whose value is not `undefined`, unchanged |
| `JsValues.JsonableKeepsDefined` | src/App.tsx:134 | an object without `undefined` properties, such as a merged menu record, is sent with every property it has |
| `JsValues.Render` | src/App.tsx:88 | a number inside a template literal reads back as that number; `undefined` renders as "undefined" |
| `JsValues.IntToStringRoundTrip` | src/App.tsx:134 | an id written into a request path parses back to the same id |
| `JsValues.IntToStringInjective` | src/App.tsx:154 | two menus get the same id segment exactly when their ids are equal, so each request addresses one record |
| `Records.MenuObjRoundTrip` | src/App.tsx:9-22 | a `Menu` written as a plain object reads back as the same menu |
| `Grouping.AddToBucket` | src/App.tsx:52-55 | one loop step adds the menu's category name to the keys and appends the menu to that bucket, which is empty if the bucket is new; every other bucket stays as it was |
| `Grouping.GroupByCategory` | src/App.tsx:50-56 | the loop builds the dictionary `Grouped(menus)` (invariant: the grouping of the prefix visited so far) |
| `Grouping.MenusNamedAppend` | src/App.tsx:55 | a bucket of a concatenated response is the first part's bucket followed by the second's: buckets keep response order |
| `Grouping.GroupedIsFilter` | src/App.tsx:51-56 | the keys are exactly the category names in the response; each bucket is the response filtered by that name, in order, and is never empty |
| `Grouping.GroupedPartition` | src/App.tsx:51-56 | each fetched menu is in the bucket of its category name as often as in the response (duplicates counted), and in no other bucket |
| `Grouping.GroupedAsWrittenThrows` | src/App.tsx:52-55 | on a plain object the loop agrees with `Grouped` exactly when no category name is an inherited `Object.prototype` property; otherwise it throws |
| `Grouping.ConstructorCategoryIsLost` | src/App.tsx:52-55 | a single menu in a category named "constructor": `Grouped` gives it a bucket, the loop as written throws |
| `CategoryFilter.Rendered` | src/App.tsx:195-200 | one list per fetched category, in category order, each the filtered bucket of that category; it uses the corrected lookup, see "## Left out" |
| `CategoryFilter.VisibleIsFilter` | src/App.tsx:199-200 | under a heading: the menus of that category in response order when the selection is 'all' or the name, else nothing; every listed menu has that category name |
| `CategoryFilter.ShownExactly` | src/App.tsx:195-200 | a menu is listed on the page if and only if it was fetched and some fetched category with its name is selected |
| `CategoryFilter.VisibleAsWrittenThrows` | src/App.tsx:200 | the plain-object lookup agrees with `Visible` except for a selected category named after an inherited property with no bucket, where it throws |
| `CategoryFilter.ToStringCategoryCrashesRender` | src/App.tsx:200 | a category "toString" without menus throws during render under 'all', while `Visible` lists nothing |
| `Requests.Url` | src/App.tsx:24 | every request URL starts with the backend URL |
| `Requests.UrlSegments` | src/App.tsx:24 | a path of one, two or three segments is addressed as the backend URL followed by each segment after a slash |
| `Requests.ListUrls` | src/App.tsx:47-65 | the two list requests are `GET ${BackendUrl}/menu` and `GET ${BackendUrl}/category` |
| `Requests.SplitAddMenu` | src/App.tsx:75 | `img` and `categoryId` are taken out; `menu` keeps every other submitted field unchanged |
| `Requests.SplitAddMenuRoundTrip` | src/App.tsx:75 | putting the three parts back together gives the submitted values: nothing is lost or duplicated |
| `Requests.AddMenuRequest` | src/App.tsx:74-92 | throws exactly when no file was selected. Otherwise it builds `POST /menu/{categoryId}`: the path parses back to the category id, part `img` is the first file (the text "undefined" if the entry has no file), and part `menu` holds every defined field except `img` and `categoryId`; the URL is `${BackendUrl}/menu/${categoryId}` |
| `Requests.AddCategoryRequest` | src/App.tsx:106-107 | `POST ${BackendUrl}/category` with exactly the defined submitted fields |
| `Requests.EditPayload` | src/App.tsx:133 | the merge holds every `Menu` property plus every submitted one; submitted values win, and the rest come from `editMenu`; with no `editMenu` it is the submitted values alone |
| `Requests.UpdateInfoRequest` | src/App.tsx:132-134 | `PUT /menu/{id}` whose id parses back to `editMenu.id`, with the serialised merge as body; the URL is `${BackendUrl}/menu/${editMenu?.id}` |
| `Requests.UpdateInfoWithoutTarget` | src/App.tsx:132-134 | with no `editMenu` the request goes to `${BackendUrl}/menu/undefined` with the submitted values alone |
| `Requests.EditPayloadIsEdit` | src/App.tsx:133-134 | the body the server gets reads as `editMenu` with each submitted field overwritten; `id`, `psize`, `img` and `category` are carried over |
| `Requests.EditPayloadIsMenuObj` | src/App.tsx:133 | `{...editMenu, ...values}` is exactly the object of the edited menu: the submitted fields add no property |
| `Requests.MergeIsMenuObj` | src/App.tsx:133 | the map union the spread denotes is the object of the edited menu |
| `Requests.PriceOnlyEdit` | src/App.tsx:133 | submitting only a price changes only the price |
| `Requests.ImageRequest` | src/App.tsx:146-158 | a request is built exactly when the id is truthy, the list is non-empty and its first entry wraps a file; it is `PUT /menu/{id}/image`, with a path id that parses back to `id` and one `img` part holding that file; the URL is `${BackendUrl}/menu/${id}/image` |
| `Dashboard.MenuId` | src/App.tsx:332-333 | `editImageMenu?.id` is defined exactly when a menu is set, and is then that menu's id |
| `Dashboard.App.PageListsFetched` | src/App.tsx:195-200 | in every valid state, rendering as written throws exactly when a selected fetched category is named after an inherited property. Otherwise every heading lists what `Rendered` lists, and a menu is listed exactly when it came with the last fetched list and a fetched category with its name is selected |
| `Dashboard.App.OpenModalsHaveTargets` | src/App.tsx:122-174 | while the edit-info modal is visible its submit addresses `editMenu`'s own id, never `/menu/undefined`; while the image modal is visible `editImageMenu?.id` is that menu's id |
| `Dashboard.App.constructor` | src/App.tsx:27-38 | initial state: empty dictionary and categories, every modal closed, no edit target, no staged files, selection 'all' |
| `Dashboard.App.FetchMenus` | src/App.tsx:46-62 | issues `GET /menu`. When the answer arrives and no category in it is named after an inherited property, `fetched` becomes the answer and the dictionary its grouping. Otherwise nothing but the request changes: either the request failed, or the loop as written threw and the catch only logged |
| `Dashboard.App.FetchCategories` | src/App.tsx:64-72 | issues `GET /category`; on success the categories are replaced, nothing else changes |
| `Dashboard.App.Issue` | src/App.tsx:134 | an axios call leaving the component records its request and changes nothing else until it settles |
| `Dashboard.App.AddMenuSucceeded` | src/App.tsx:93-100 | re-fetches the menus, closes the add-item modal, resets the form; `fetched` becomes the answer exactly when it is installed |
| `Dashboard.App.HandleAddMenu` | src/App.tsx:74-104 | with no file selected it throws and nothing changes; on a failed post only the request is recorded; on success the request and `GET /menu` are issued, the modal closes and the form resets. `fetched` changes only when the re-fetch installs a list |
| `Dashboard.App.AddCategorySucceeded` | src/App.tsx:108-112 | re-fetches only the categories, closes the category modal, resets the form; the dictionary is untouched |
| `Dashboard.App.HandleAddCategory` | src/App.tsx:106-116 | posts the category; on success it re-fetches the categories only; the dictionary never changes |
| `Dashboard.App.HandleCategoryChange` | src/App.tsx:118-120 | only the selection changes; the dictionary and all else stay |
| `Dashboard.App.HandleOpenEditModal` | src/App.tsx:122-125 | sets the edit target and shows the edit-info modal, nothing else |
| `Dashboard.App.HandleCloseEditModal` | src/App.tsx:127-129 | hides the edit-info modal and keeps the edit target |
| `Dashboard.App.UpdateInfoSucceeded` | src/App.tsx:135-140 | re-fetches the menus, clears `editMenuModalVisible`, resets the form; `fetched` becomes the answer exactly when it is installed |
| `Dashboard.App.HandleUpdateInfo` | src/App.tsx:132-144 | sends the merge for `editMenu` and returns that request. On success it re-fetches and clears `editMenuModalVisible`. The edit-info modal stays as it was in every case, and `fetched` changes only when the re-fetch installs a list |
| `Dashboard.App.ImageChangeSucceeded` | src/App.tsx:159-163 | re-fetches the menus, closes the image modal, clears the staged list; `fetched` becomes the answer exactly when it is installed |
| `Dashboard.App.HandleImageChange` | src/App.tsx:146-169 | when the guard fails, nothing is sent and nothing changes; when it holds, the image request is sent, and on success the image modal closes and the list is cleared. `fetched` changes only when the re-fetch installs a list |
| `Dashboard.App.HandleOpenEditImageModal` | src/App.tsx:171-174 | sets the image target and shows the image modal |
| `Dashboard.App.OpenAddMenu` | src/App.tsx:180 | shows the add-item modal |
| `Dashboard.App.OpenAddCategory` | src/App.tsx:181 | shows the category modal |
| `Dashboard.App.CancelAddMenu` | src/App.tsx:232-235 | hides the add-item modal and resets the form |
| `Dashboard.App.CancelAddCategory` | src/App.tsx:281-284 | hides the category modal and resets the form |
| `Dashboard.App.CancelEditImage` | src/App.tsx:323-326 | hides the image modal and resets the form; the staged list is kept |
| `Dashboard.App.SaveEditImage` | src/App.tsx:331-338 | the image modal is closed afterwards in every case. A request goes out only when the target's id is truthy and the staged list passes the guard; the list is cleared only after a successful upload. `fetched` changes only when the re-fetch installs a list |
| `Dashboard.App.UploadChange` | src/App.tsx:349 | stages the new file list, nothing else |

## Left out

- Transport: axios, the promise chains and asynchrony (src/App.tsx:47, 65, 88, 107, 134, 154). Each call is a request value appended to `outbox`, and its outcome is a parameter. A handler and the re-fetch it starts are modelled as settled together.
- The initial `useEffect` loading (src/App.tsx:41-44) and the relative timing of the two initial fetches. These are about scheduling.
- Rendering: the antd components, the category `Select` options (src/App.tsx:183-192), the cards and the modal titles. Only the filter guard and the bucket lookup (src/App.tsx:199-200) are modelled, plus the per-category list structure (`Rendered`).
- antd `Form` behaviour: validation rules, `initialValue` seeding of the edit-info fields, and the single `form` instance shared by the three forms. Submitted values are a parameter, and `form.resetFields()` is counted in `formResets`.
- `FormData` and JSON text: files are opaque tokens (`FileObj`), and a JSON part is the object being serialised. Only top-level `undefined` properties are dropped; nested ones do not occur in these payloads.
- `price` is an integer rather than a float. `<Input type="number"/>` hands over strings; the merge lemmas treat every value uniformly, but `EditPayloadIsEdit` assumes a numeric price.
- Truthiness of ids ignores `NaN`.
- `console.log` and `console.error`.
- `CategoryFilter.Rendered`: uses the corrected lookup `Visible` (see "## Findings"). For a selected category named after an inherited property and without a bucket (e.g. "toString" under 'all'), the source throws during render at src/App.tsx:200. `Rendered` lists nothing under that heading instead. `CategoryFilter.VisibleAsWritten` models the throw, and `CategoryFilter.VisibleAsWrittenThrows` says exactly where the two differ.
- `Requests.AddMenuRequest`: requires the `img` field to be a file list or `undefined`, which is what the form's `getValueFromEvent` hands over. Other shapes (a string, whose `[0]` JavaScript would index) are not modelled.
- In these places the code does not do what its UI suggests. The model follows the code:
  - The code leaves the edit-info modal open after a successful save.
  - Without a selected image, add-item throws a `TypeError` inside the handler rather than a form validation error. No request is sent in either case.
  - Edit-info sends the whole merged record, not only the edited fields.
  - Nothing enforces a single open modal, so the model claims no such invariant.

## Findings

| source | as written | input that shows it | evidently intended | confidence | as-written member | corrected member |
|---|---|---|---|---|---|---|
| src/App.tsx:50-56 | `menusByCategory` is a plain object `{}`, and the bucket test is `!menusByCategory[name]`. For an inherited property name the test is false, so `.push` is called on a function and throws. The catch handler only logs, so the whole grouping is lost. | a menu whose category is named "constructor" (also "toString", "__proto__", ...) | one bucket per category name, as for every other name | high; not executed | `Grouping.GroupedAsWrittenThrows` (with `Grouping.ConstructorCategoryIsLost`) | `Grouping.GroupByCategory` (with `Grouping.GroupedPartition`) |
| src/App.tsx:199-200 | `menusByCategory[category.name]?.map(...)` reads an inherited function for such a name. The function is not nullish, so `?.` does not stop evaluation, and calling its missing `.map` throws during render. | a fetched category named "toString" with the selection 'all' | an empty list under that heading | high; not executed | `CategoryFilter.VisibleAsWrittenThrows` (with `CategoryFilter.ToStringCategoryCrashesRender`) | `CategoryFilter.VisibleIsFilter` |
