/** The catalog's record types (types.ts) and the records of the calls the
    pages make to collaborators that are not part of this model: the
    router's `navigate` and the catalog store's mutators. */
module Types {

  datatype Option<+T> = None | Some(value: T)

  /** `AppCategory`: the three partitions of the catalog. */
  datatype AppCategory = Game | App | Software

  /** `AppItem`: one catalog entry. `downloads` is a JavaScript number that
      only ever holds integers here; `uploadDate` is an ISO date string. */
  datatype AppItem = AppItem(
    id: string,
    name: string,
    category: AppCategory,
    iconUrl: string,
    downloads: int,
    version: string,
    uploadDate: string,
    description: string)

  /** `SortOption`: the key a catalog page is ordered by. */
  datatype SortOption = Downloads | Date | Name

  /** `Omit<AppItem, 'id'>`: what the admin form edits and `addApp` receives. */
  datatype FormData = FormData(
    name: string,
    category: AppCategory,
    iconUrl: string,
    downloads: int,
    version: string,
    uploadDate: string,
    description: string)

  /** `{ ...formData, id }`: a form record completed with an id. */
  function WithId(f: FormData, id: string): (item: AppItem)
    ensures item.id == id
    ensures WithoutId(item) == f
  {
    AppItem(id, f.name, f.category, f.iconUrl, f.downloads, f.version, f.uploadDate, f.description)
  }

  /** The fields of an item other than its id. */
  function WithoutId(item: AppItem): FormData
  {
    FormData(item.name, item.category, item.iconUrl, item.downloads, item.version, item.uploadDate, item.description)
  }

  /** One call of the router's `navigate`: to a path, pushing or replacing
      the current history entry, or one step back (`navigate(-1)`). */
  datatype Navigation = Push(path: string) | Replace(path: string) | Back

  /** One call of the catalog store's mutators (`addApp`, `updateApp`,
      `deleteApp`), whose effect on the store is not part of this model. */
  datatype StoreCall = AddApp(data: FormData) | UpdateApp(item: AppItem) | DeleteApp(id: string)

  /** The path of the admin management list. */
  const ManageAppsPath: string := "/admin/apps"
}
