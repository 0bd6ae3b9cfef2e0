/** The admin item form (pages/admin/AppFormPage.tsx): one record of form
    state that starts from fixed defaults or from the item being edited,
    changes one field per input event, and on submit hands the record to
    the store and returns to the management list. The store's `addApp`,
    `updateApp` and `getAppById` are not part of this model: the page's
    calls to them are recorded, and what `getAppById` answered is a
    parameter. */
module AppForm {
  import opened Types
  import opened JsParseInt

  /** The `name` attribute of each form control. */
  datatype Field = NameField | CategoryField | IconUrlField | DownloadsField
                 | VersionField | UploadDateField | DescriptionField

  /** A change event: the control's name and its new string value. */
  datatype ChangeEvent = ChangeEvent(field: Field, value: string)

  /** The value a form field holds. */
  datatype FieldValue = Text(text: string) | Count(count: int) | Kind(kind: AppCategory)

  /** The value of one field of the form record. */
  function Get(f: FormData, field: Field): FieldValue
  {
    match field
    case NameField => Text(f.name)
    case CategoryField => Kind(f.category)
    case IconUrlField => Text(f.iconUrl)
    case DownloadsField => Count(f.downloads)
    case VersionField => Text(f.version)
    case UploadDateField => Text(f.uploadDate)
    case DescriptionField => Text(f.description)
  }

  /** A form record is determined by the values of its fields. */
  lemma FieldsDetermineForm(a: FormData, b: FormData)
    requires forall field :: Get(a, field) == Get(b, field)
    ensures a == b
  {
    assert Get(a, NameField) == Get(b, NameField);
    assert Get(a, CategoryField) == Get(b, CategoryField);
    assert Get(a, IconUrlField) == Get(b, IconUrlField);
    assert Get(a, DownloadsField) == Get(b, DownloadsField);
    assert Get(a, VersionField) == Get(b, VersionField);
    assert Get(a, UploadDateField) == Get(b, UploadDateField);
    assert Get(a, DescriptionField) == Get(b, DescriptionField);
  }

  /** The category whose enum value is `v`, if any. */
  function CategoryOf(v: string): Option<AppCategory>
  {
    if v == "game" then Some(Game)
    else if v == "app" then Some(App)
    else if v == "software" then Some(Software)
    else None
  }

  /** An event the form can produce: the category control is a select
      whose only options are the three category values. */
  predicate WellFormed(ev: ChangeEvent)
  {
    ev.field == CategoryField ==> CategoryOf(ev.value).Some?
  }

  /** The value an event stores: downloads are parsed, everything else is
      taken as typed. */
  function EventValue(ev: ChangeEvent): FieldValue
    requires WellFormed(ev)
  {
    match ev.field
    case DownloadsField => Count(ParseDownloads(ev.value))
    case CategoryField => Kind(CategoryOf(ev.value).value)
    case _ => Text(ev.value)
  }

  /** `handleChange`'s update `{ ...prev, [name]: ... }`: the field named by
      the event takes the event's value and every other field keeps its
      value. */
  function ApplyChange(f: FormData, ev: ChangeEvent): (r: FormData)
    requires WellFormed(ev)
    ensures Get(r, ev.field) == EventValue(ev)
    ensures forall other :: other != ev.field ==> Get(r, other) == Get(f, other)
  {
    match ev.field
    case NameField => f.(name := ev.value)
    case CategoryField => f.(category := CategoryOf(ev.value).value)
    case IconUrlField => f.(iconUrl := ev.value)
    case DownloadsField => f.(downloads := ParseDownloads(ev.value))
    case VersionField => f.(version := ev.value)
    case UploadDateField => f.(uploadDate := ev.value)
    case DescriptionField => f.(description := ev.value)
  }

  /** The enum value of a category: what the category select submits. */
  function CategoryValue(c: AppCategory): (v: string)
    ensures CategoryOf(v) == Some(c)
  {
    match c
    case Game => "game"
    case App => "app"
    case Software => "software"
  }

  /** The string a control displays for the form's current value. */
  function Shown(f: FormData, field: Field): string
  {
    match field
    case NameField => f.name
    case CategoryField => CategoryValue(f.category)
    case IconUrlField => f.iconUrl
    case DownloadsField => DecimalString(f.downloads)
    case VersionField => f.version
    case UploadDateField => f.uploadDate
    case DescriptionField => f.description
  }

  /** Submitting the value a control already shows changes nothing: the
      downloads control shows its number in decimal, which parses back to
      the same number. */
  lemma ApplyChangeShownValue(f: FormData, field: Field)
    ensures WellFormed(ChangeEvent(field, Shown(f, field)))
    ensures ApplyChange(f, ChangeEvent(field, Shown(f, field))) == f
  {
    if field == DownloadsField {
      ParseDownloadsRoundTrip(f.downloads);
    }
    var r := ApplyChange(f, ChangeEvent(field, Shown(f, field)));
    FieldsDetermineForm(r, f);
  }

  const DefaultIconUrl: string := "https://picsum.photos/seed/new/200/200"

  /** The new-item form; `today` is the current date as `YYYY-MM-DD`. */
  function NewItemForm(today: string): (f: FormData)
    ensures f.name == [] && f.category == App && f.downloads == 0
    ensures f.version == [] && f.description == [] && f.iconUrl == DefaultIconUrl
    ensures f.uploadDate == today
  {
    FormData([], App, DefaultIconUrl, 0, [], today, [])
  }

  /** `Boolean(id)`: the route has an id, and it is not empty. */
  predicate IsEditing(routeId: Option<string>)
  {
    routeId.Some? && routeId.value != []
  }

  /** The browser's `required` check: the form is submitted only when
      none of the required text controls is empty. The downloads control
      always shows a number, so it never blocks a submit. */
  predicate RequiredFilled(f: FormData)
  {
    f.name != [] && f.version != [] && f.uploadDate != [] && f.iconUrl != [] && f.description != []
  }

  /** The store call a submit makes: an update carrying the route's id in
      edit mode, an addition otherwise. */
  function SubmitCall(routeId: Option<string>, f: FormData): (c: StoreCall)
    ensures c.UpdateApp? <==> IsEditing(routeId)
    ensures c.UpdateApp? ==> c.item.id == routeId.value && WithoutId(c.item) == f
    ensures c.AddApp? ==> c.data == f
  {
    if IsEditing(routeId) then UpdateApp(WithId(f, routeId.value)) else AddApp(f)
  }

  /** `AppFormPage`: its form state and the calls it has made to the store
      and to the router. */
  class AppFormPage {
    const routeId: Option<string>
    var formData: FormData
    var storeCalls: seq<StoreCall>
    var navigations: seq<Navigation>

    /** Mounting the page: the form starts from the new-item defaults. */
    constructor (routeId: Option<string>, today: string)
      ensures this.routeId == routeId
      ensures formData == NewItemForm(today)
      ensures storeCalls == [] && navigations == []
    {
      this.routeId := routeId;
      formData := NewItemForm(today);
      storeCalls := [];
      navigations := [];
    }

    /** The edit-load effect, given what `getAppById(id)` returned: in edit
        mode a found item replaces the form wholesale and a missing one
        sends the page back to the management list; in create mode
        nothing happens. */
    method LoadForEdit(found: Option<AppItem>)
      modifies this
      ensures storeCalls == old(storeCalls)
      ensures IsEditing(routeId) && found.Some? ==>
                formData == WithoutId(found.value) && navigations == old(navigations)
      ensures IsEditing(routeId) && found.None? ==>
                formData == old(formData) && navigations == old(navigations) + [Push(ManageAppsPath)]
      ensures !IsEditing(routeId) ==> formData == old(formData) && navigations == old(navigations)
    {
      if IsEditing(routeId) {
        match found
        case Some(item) =>
          formData := WithoutId(item);
        case None =>
          navigations := navigations + [Push(ManageAppsPath)];
      }
    }

    /** `handleChange`. */
    method HandleChange(ev: ChangeEvent)
      requires WellFormed(ev)
      modifies this
      ensures formData == ApplyChange(old(formData), ev)
      ensures storeCalls == old(storeCalls) && navigations == old(navigations)
    {
      formData := ApplyChange(formData, ev);
    }

    /** `handleSubmit`, which the browser runs only once every required
        control is filled: exactly one store call, then back to the
        management list whichever branch ran. */
    method HandleSubmit()
      requires RequiredFilled(formData)
      modifies this
      ensures storeCalls == old(storeCalls) + [SubmitCall(routeId, formData)]
      ensures navigations == old(navigations) + [Push(ManageAppsPath)]
      ensures formData == old(formData)
    {
      storeCalls := storeCalls + [SubmitCall(routeId, formData)];
      navigations := navigations + [Push(ManageAppsPath)];
    }

    /** The cancel button: back to the management list, with no store
        call and the form left as it is. */
    method Cancel()
      modifies this
      ensures navigations == old(navigations) + [Push(ManageAppsPath)]
      ensures storeCalls == old(storeCalls) && formData == old(formData)
    {
      navigations := navigations + [Push(ManageAppsPath)];
    }
  }

  /** `ManageAppsPage.handleDelete`: the store is asked to delete the item
      only when the user confirms. */
  function DeleteCalls(id: string, confirmed: bool): (r: seq<StoreCall>)
    ensures confirmed ==> r == [DeleteApp(id)]
    ensures !confirmed ==> r == []
  {
    if confirmed then [DeleteApp(id)] else []
  }
}
