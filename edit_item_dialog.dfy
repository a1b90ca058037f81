/** The "Edit Item" dialog (components/vault/edit-item-dialog.tsx): the
    form is loaded from the item, edited through the same checklist
    handlers as the add dialog, and saved as a partial update. */
module EditItem {
  import opened Common
  import opened JsString
  import opened VaultItems
  import AddItem

  /** The `updateData` record. `title`, `website_url` and `tags` are always
      written; a type-specific key is present (`Some`) only for its type. */
  datatype UpdateRow = UpdateRow(
    title: string,
    websiteUrl: Column,
    tags: Column,
    username: Option<Column>,
    password: Option<Column>,
    notes: Option<Column>,
    checklistItems: Option<Column>)

  /** The update built from the form for an item of type `itemType`. */
  function BuildUpdate(itemType: ItemType, f: ItemForm): (row: UpdateRow)
    ensures row.title == f.title
    ensures row.websiteUrl == Null <==> f.websiteUrl == ""
    ensures row.websiteUrl != Null ==> row.websiteUrl == Text(f.websiteUrl)
    ensures row.tags == Null <==> ParseTags(f.tags) == []
    ensures row.tags != Null ==> row.tags == TagList(ParseTags(f.tags))
    ensures row.username.Some? <==> itemType == LoginItem
    ensures row.password.Some? <==> itemType == LoginItem
    ensures row.notes.Some? <==> itemType == NoteItem
    ensures row.checklistItems.Some? <==> itemType == ChecklistItem
    ensures row.username.Some? ==> row.username.value == (if f.username == "" then Null else Text(f.username))
    ensures row.password.Some? ==> row.password.value == (if f.password == "" then Null else Text(f.password))
    ensures row.notes.Some? ==> row.notes.value == (if f.notes == "" then Null else Text(f.notes))
    ensures row.checklistItems.Some? ==> row.checklistItems.value == Entries(f.checklistItems)
  {
    UpdateRow(
      f.title,
      TextOrNull(f.websiteUrl),
      TagsColumn(f.tags),
      if itemType == LoginItem then Some(TextOrNull(f.username)) else None,
      if itemType == LoginItem then Some(TextOrNull(f.password)) else None,
      if itemType == NoteItem then Some(TextOrNull(f.notes)) else None,
      if itemType == ChecklistItem then Some(Entries(f.checklistItems)) else None)
  }

  /** A text field loaded from an optional column: the column's value, or
      "" when it is null. */
  predicate LoadsColumn(field: string, column: Option<string>) {
    if column.Some? then field == column.value else field == ""
  }

  /** The form fields as the dialog loads them from `item`: each text
      field holds its column, or "" when the column is null; the tag field
      holds the tags joined by ", ", or ""; the checklist is the stored
      list, or the empty list. */
  function LoadForm(item: VaultItem): (f: ItemForm)
    ensures f.title == item.title
    ensures LoadsColumn(f.username, item.username) && LoadsColumn(f.password, item.password)
    ensures LoadsColumn(f.websiteUrl, item.websiteUrl) && LoadsColumn(f.notes, item.notes)
    ensures f.tags == if item.tags.Some? then Join(item.tags.value, ", ") else ""
    ensures f.checklistItems == if item.checklistItems.Some? then item.checklistItems.value else []
  {
    ItemForm(
      item.title,
      LoadedText(item.username),
      LoadedText(item.password),
      LoadedText(item.websiteUrl),
      LoadedText(item.notes),
      JoinTags(item.tags),
      EntriesOf(item.checklistItems))
  }

  /** The edit dialog writes every column it writes exactly as the add
      dialog would insert it from the same form; a column it leaves out is
      one the add dialog would insert as null. */
  lemma UpdateAgreesWithInsert(userId: string, itemType: ItemType, f: ItemForm)
    ensures var u, i := BuildUpdate(itemType, f), AddItem.BuildInsert(userId, itemType, f);
      && u.title == i.title && u.websiteUrl == i.websiteUrl && u.tags == i.tags
      && (if u.username.Some? then u.username.value == i.username else i.username == Null)
      && (if u.password.Some? then u.password.value == i.password else i.password == Null)
      && (if u.notes.Some? then u.notes.value == i.notes else i.notes == Null)
      && (if u.checklistItems.Some? then u.checklistItems.value == i.checklistItems else i.checklistItems == Null)
  {
  }

  /** Saving a freshly loaded item writes its own text values back, with
      an empty string stored as null. */
  lemma SaveUnchangedText(item: VaultItem)
    ensures var u := BuildUpdate(item.itemType, LoadForm(item));
      && u.title == item.title
      && u.websiteUrl == StoredText(item.websiteUrl)
      && (u.username.Some? ==> u.username.value == StoredText(item.username))
      && (u.password.Some? ==> u.password.value == StoredText(item.password))
      && (u.notes.Some? ==> u.notes.value == StoredText(item.notes))
  {
    var f := LoadForm(item);
    assert f.username == LoadedText(item.username) && f.password == LoadedText(item.password);
    assert f.websiteUrl == LoadedText(item.websiteUrl) && f.notes == LoadedText(item.notes);
    TextSurvivesEdit(item.websiteUrl);
    TextSurvivesEdit(item.username);
    TextSurvivesEdit(item.password);
    TextSurvivesEdit(item.notes);
  }

  /** Saving a freshly loaded checklist item writes its checklist back,
      with a missing checklist stored as the empty list. */
  lemma SaveUnchangedChecklist(item: VaultItem)
    ensures var u := BuildUpdate(item.itemType, LoadForm(item));
      u.checklistItems.Some? ==> u.checklistItems.value == Entries(EntriesOf(item.checklistItems))
  {
  }

  /** Saving a freshly loaded item writes its tags back, in order, with a
      missing or empty tag list stored as null, provided every stored tag
      is non-empty, trimmed and comma-free. */
  lemma SaveUnchangedTags(item: VaultItem)
    requires item.tags.Some? ==> forall k :: 0 <= k < |item.tags.value| ==> IsTag(item.tags.value[k])
    ensures BuildUpdate(item.itemType, LoadForm(item)).tags == StoredTags(item.tags)
  {
    TagsSurviveEdit(item.tags);
  }

  class EditItemDialog {
    /** The item being edited; the parent may replace it. */
    var item: VaultItem
    var title: string
    var username: string
    var password: string
    var websiteUrl: string
    var notes: string
    var tags: string
    var checklistItems: seq<ChecklistEntry>
    var newChecklistItem: string
    var isLoading: bool
    var error: Option<string>

    /** The editable fields as one value. */
    function Form(): (f: ItemForm)
      reads this
      ensures f.title == title && f.username == username && f.password == password
      ensures f.websiteUrl == websiteUrl && f.notes == notes && f.tags == tags
      ensures f.checklistItems == checklistItems
    {
      ItemForm(title, username, password, websiteUrl, notes, tags, checklistItems)
    }

    constructor (item: VaultItem)
      ensures this.item == item && Form() == LoadForm(item)
      ensures newChecklistItem == "" && !isLoading && error == None
    {
      this.item := item;
      var f := LoadForm(item);
      title, username, password, websiteUrl := f.title, f.username, f.password, f.websiteUrl;
      notes, tags, checklistItems := f.notes, f.tags, f.checklistItems;
      newChecklistItem := "";
      isLoading := false;
      error := None;
    }

    /** The effect on `[item]`: a new item reloads every form field; the
        pending checklist input, the loading flag and the error stay. */
    method OnItemChanged(newItem: VaultItem)
      modifies this
      ensures item == newItem && Form() == LoadForm(newItem)
      ensures newChecklistItem == old(newChecklistItem)
      ensures isLoading == old(isLoading) && error == old(error)
    {
      item := newItem;
      var f := LoadForm(newItem);
      title, username, password, websiteUrl := f.title, f.username, f.password, f.websiteUrl;
      notes, tags, checklistItems := f.notes, f.tags, f.checklistItems;
    }

    /** `handleAddChecklistItem`, as in the add dialog. */
    method HandleAddChecklistItem()
      modifies this
      ensures var appended := AppendEntry(old(checklistItems), old(newChecklistItem));
        && checklistItems == (if appended.Some? then appended.value else old(checklistItems))
        && newChecklistItem == (if appended.Some? then "" else old(newChecklistItem))
      ensures item == old(item) && Form().(checklistItems := []) == old(Form()).(checklistItems := [])
      ensures isLoading == old(isLoading) && error == old(error)
    {
      var appended := AppendEntry(checklistItems, newChecklistItem);
      if appended.Some? {
        SetChecklist(appended.value, "");
      }
    }

    /** Replaces the list and the new-entry input, and nothing else. */
    method SetChecklist(items: seq<ChecklistEntry>, input: string)
      modifies this
      ensures checklistItems == items && newChecklistItem == input
      ensures item == old(item) && Form().(checklistItems := []) == old(Form()).(checklistItems := [])
      ensures isLoading == old(isLoading) && error == old(error)
    {
      checklistItems := items;
      newChecklistItem := input;
    }

    /** `handleRemoveChecklistItem`. */
    method HandleRemoveChecklistItem(index: int)
      modifies this
      ensures checklistItems == RemoveAt(old(checklistItems), index)
      ensures item == old(item) && Form().(checklistItems := []) == old(Form()).(checklistItems := [])
      ensures newChecklistItem == old(newChecklistItem)
      ensures isLoading == old(isLoading) && error == old(error)
    {
      checklistItems := RemoveAt(checklistItems, index);
    }

    /** `handleToggleChecklistItem`. */
    method HandleToggleChecklistItem(index: int)
      modifies this
      ensures checklistItems == ToggleAt(old(checklistItems), index)
      ensures item == old(item) && Form().(checklistItems := []) == old(Form()).(checklistItems := [])
      ensures newChecklistItem == old(newChecklistItem)
      ensures isLoading == old(isLoading) && error == old(error)
    {
      checklistItems := ToggleAt(checklistItems, index);
    }

    /** `handleSubmit`, with the answer of the update given: the update
        built from the form is sent for the item's id; its error message,
        if any, is shown, and otherwise `onSuccess` fires. */
    method HandleSubmit(updateError: Option<string>)
      returns (targetId: string, update: UpdateRow, succeeded: bool)
      modifies this
      ensures targetId == item.id && update == BuildUpdate(item.itemType, Form())
      ensures succeeded <==> updateError.None?
      ensures error == updateError && !isLoading
      ensures item == old(item) && Form() == old(Form()) && newChecklistItem == old(newChecklistItem)
    {
      var f := Form();
      isLoading := true;
      error := None;
      targetId, update := item.id, BuildUpdate(item.itemType, f);
      if updateError.Some? {
        error := updateError;
        succeeded := false;
      } else {
        succeeded := true;
      }
      isLoading := false;
    }
  }
}
