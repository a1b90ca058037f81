/** The "Add New Item" dialog (components/vault/add-item-dialog.tsx): a
    form whose fields the handlers overwrite, and the row it inserts. */
module AddItem {
  import opened Common
  import opened JsString
  import opened VaultItems
  import opened Identity

  const NotLoggedInMessage: string := "You must be logged in"

  const EmptyForm: ItemForm := ItemForm("", "", "", "", "", "", [])

  /** The object passed to `insert`; every key of it is written. */
  datatype InsertRow = InsertRow(
    userId: string,
    itemType: ItemType,
    title: string,
    username: Column,
    password: Column,
    websiteUrl: Column,
    notes: Column,
    tags: Column,
    checklistItems: Column)

  /** The row built from the form: the type-specific columns are null
      unless the type matches, and empty text fields and an empty tag list
      become null. */
  function BuildInsert(userId: string, itemType: ItemType, f: ItemForm): (row: InsertRow)
    ensures row.userId == userId && row.itemType == itemType && row.title == f.title
    ensures row.username != Null <==> itemType == LoginItem && f.username != ""
    ensures row.username != Null ==> row.username == Text(f.username)
    ensures row.password != Null <==> itemType == LoginItem && f.password != ""
    ensures row.password != Null ==> row.password == Text(f.password)
    ensures row.websiteUrl == Null <==> f.websiteUrl == ""
    ensures row.websiteUrl != Null ==> row.websiteUrl == Text(f.websiteUrl)
    ensures row.notes != Null <==> itemType == NoteItem && f.notes != ""
    ensures row.notes != Null ==> row.notes == Text(f.notes)
    ensures row.tags == Null <==> ParseTags(f.tags) == []
    ensures row.tags != Null ==> row.tags == TagList(ParseTags(f.tags))
    ensures row.checklistItems != Null <==> itemType == ChecklistItem
    ensures row.checklistItems != Null ==> row.checklistItems == Entries(f.checklistItems)
  {
    InsertRow(userId, itemType, f.title,
      if itemType == LoginItem then TextOrNull(f.username) else Null,
      if itemType == LoginItem then TextOrNull(f.password) else Null,
      TextOrNull(f.websiteUrl),
      if itemType == NoteItem then TextOrNull(f.notes) else Null,
      TagsColumn(f.tags),
      if itemType == ChecklistItem then Entries(f.checklistItems) else Null)
  }

  class AddItemDialog {
    var itemType: ItemType
    var title: string
    var username: string
    var password: string
    var websiteUrl: string
    var notes: string
    var tags: string
    var checklistItems: seq<ChecklistEntry>
    var newChecklistItem: string
    var isLoading: bool
    var error: Option<string>

    /** The editable fields as one value. */
    function Form(): (f: ItemForm)
      reads this
      ensures f.title == title && f.username == username && f.password == password
      ensures f.websiteUrl == websiteUrl && f.notes == notes && f.tags == tags
      ensures f.checklistItems == checklistItems
    {
      ItemForm(title, username, password, websiteUrl, notes, tags, checklistItems)
    }

    /** The dialog opens on a blank login form. */
    constructor ()
      ensures itemType == LoginItem && Form() == EmptyForm && newChecklistItem == ""
      ensures !isLoading && error == None
    {
      itemType := LoginItem;
      title, username, password, websiteUrl, notes, tags := "", "", "", "", "", "";
      checklistItems := [];
      newChecklistItem := "";
      isLoading := false;
      error := None;
    }

    /** `handleTypeChange`: a new type starts from a blank form. */
    method HandleTypeChange(newType: ItemType)
      modifies this
      ensures itemType == newType && Form() == EmptyForm && newChecklistItem == ""
      ensures isLoading == old(isLoading) && error == old(error)
    {
      itemType := newType;
      ClearForm();
    }

    /** `handleAddChecklistItem`: appends the trimmed input and clears it,
        unless the input is blank, in which case nothing changes. */
    method HandleAddChecklistItem()
      modifies this
      ensures var appended := AppendEntry(old(checklistItems), old(newChecklistItem));
        && checklistItems == (if appended.Some? then appended.value else old(checklistItems))
        && newChecklistItem == (if appended.Some? then "" else old(newChecklistItem))
      ensures itemType == old(itemType) && Form().(checklistItems := []) == old(Form()).(checklistItems := [])
      ensures isLoading == old(isLoading) && error == old(error)
    {
      var appended := AppendEntry(checklistItems, newChecklistItem);
      if appended.Some? {
        SetChecklist(appended.value, "");
      }
    }

    /** Replaces the list and the new-entry input, and nothing else. */
    method SetChecklist(items: seq<ChecklistEntry>, input: string)
      modifies this
      ensures checklistItems == items && newChecklistItem == input
      ensures itemType == old(itemType) && Form().(checklistItems := []) == old(Form()).(checklistItems := [])
      ensures isLoading == old(isLoading) && error == old(error)
    {
      checklistItems := items;
      newChecklistItem := input;
    }

    /** `handleRemoveChecklistItem`. */
    method HandleRemoveChecklistItem(index: int)
      modifies this
      ensures checklistItems == RemoveAt(old(checklistItems), index)
      ensures itemType == old(itemType) && Form().(checklistItems := []) == old(Form()).(checklistItems := [])
      ensures newChecklistItem == old(newChecklistItem)
      ensures isLoading == old(isLoading) && error == old(error)
    {
      checklistItems := RemoveAt(checklistItems, index);
    }

    /** `handleToggleChecklistItem`. */
    method HandleToggleChecklistItem(index: int)
      modifies this
      ensures checklistItems == ToggleAt(old(checklistItems), index)
      ensures itemType == old(itemType) && Form().(checklistItems := []) == old(Form()).(checklistItems := [])
      ensures newChecklistItem == old(newChecklistItem)
      ensures isLoading == old(isLoading) && error == old(error)
    {
      checklistItems := ToggleAt(checklistItems, index);
    }

    /** `handleSubmit`, with the answers of `getUser` and of the insert
        given. Without a signed-in user nothing is inserted; otherwise the
        row built from the form is inserted, and on success the form is
        cleared (the type stays) and `onSuccess` fires. */
    method HandleSubmit(lookup: UserLookup, insertError: Option<string>)
      returns (inserted: Option<InsertRow>, succeeded: bool)
      modifies this
      ensures !lookup.SignedInUser? ==>
        && inserted == None && !succeeded
        && error == Some(NotLoggedInMessage) && Form() == old(Form())
        && newChecklistItem == old(newChecklistItem)
      ensures lookup.SignedInUser? ==>
        inserted == Some(BuildInsert(lookup.userId, old(itemType), old(Form())))
      ensures lookup.SignedInUser? && insertError.Some? ==>
        && !succeeded && error == insertError
        && Form() == old(Form()) && newChecklistItem == old(newChecklistItem)
      ensures lookup.SignedInUser? && insertError.None? ==>
        && succeeded && error == None
        && Form() == EmptyForm && newChecklistItem == ""
      ensures itemType == old(itemType) && !isLoading
    {
      var f, t := Form(), itemType;
      isLoading := true;
      error := None;
      if !lookup.SignedInUser? {
        error := Some(NotLoggedInMessage);
        isLoading := false;
        inserted, succeeded := None, false;
        return;
      }
      inserted := Some(BuildInsert(lookup.userId, t, f));
      if insertError.Some? {
        error := insertError;
        succeeded := false;
      } else {
        ClearForm();
        succeeded := true;
      }
      isLoading := false;
    }

    /** The field resets after a successful insert. */
    method ClearForm()
      modifies this
      ensures Form() == EmptyForm && newChecklistItem == ""
      ensures itemType == old(itemType) && isLoading == old(isLoading) && error == old(error)
    {
      title := "";
      username := "";
      password := "";
      websiteUrl := "";
      notes := "";
      tags := "";
      checklistItems := [];
      newChecklistItem := "";
    }
  }
}
