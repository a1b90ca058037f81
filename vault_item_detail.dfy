/** The detail pane of one item (components/vault/vault-item-detail.tsx):
    its checklist handlers compute the new list from the stored item and
    send it as the update of `checklist_items`. */
module ItemDetail {
  import opened Common
  import opened JsString
  import opened VaultItems

  /** `[...checklistItems]` followed by the assignment at `index`: a fresh
      copy in which only that entry's `completed` flag is flipped. */
  method ToggledCopy(entries: seq<ChecklistEntry>, index: int) returns (updated: seq<ChecklistEntry>)
    requires 0 <= index < |entries|
    ensures updated == ToggleAt(entries, index)
  {
    var copy := new ChecklistEntry[|entries|](i requires 0 <= i < |entries| => entries[i]);
    copy[index] := copy[index].(completed := !copy[index].completed);
    updated := copy[..];
  }

  class VaultItemDetail {
    /** The item shown; the pane never changes it itself, it asks the
        parent to refetch (`onUpdate`) after a successful update. */
    const item: VaultItem
    var newChecklistItem: string

    constructor (item: VaultItem)
      ensures this.item == item && newChecklistItem == ""
    {
      this.item := item;
      newChecklistItem := "";
    }

    /** `handleChecklistToggle`, with the update's outcome given: sends the
        list with entry `index` flipped; `onUpdate` fires only on success. */
    method HandleChecklistToggle(index: int, updateFailed: bool)
      returns (sent: seq<ChecklistEntry>, refreshed: bool)
      requires 0 <= index < |EntriesOf(item.checklistItems)|
      ensures sent == ToggleAt(EntriesOf(item.checklistItems), index)
      ensures refreshed <==> !updateFailed
    {
      sent := ToggledCopy(EntriesOf(item.checklistItems), index);
      refreshed := !updateFailed;
    }

    /** `handleAddChecklistItem`: blank input sends nothing; otherwise the
        list with the trimmed entry appended is sent, and the input is
        cleared and `onUpdate` fires only when the update succeeds. */
    method HandleAddChecklistItem(updateFailed: bool)
      returns (sent: Option<seq<ChecklistEntry>>, refreshed: bool)
      modifies this
      ensures sent == AppendEntry(EntriesOf(item.checklistItems), old(newChecklistItem))
      ensures refreshed <==> sent.Some? && !updateFailed
      ensures newChecklistItem == if refreshed then "" else old(newChecklistItem)
    {
      sent := AppendEntry(EntriesOf(item.checklistItems), newChecklistItem);
      refreshed := sent.Some? && !updateFailed;
      if refreshed {
        newChecklistItem := "";
      }
    }

    /** `handleDeleteChecklistItem`: sends the list without entry `index`. */
    method HandleDeleteChecklistItem(index: int, updateFailed: bool)
      returns (sent: seq<ChecklistEntry>, refreshed: bool)
      ensures sent == RemoveAt(EntriesOf(item.checklistItems), index)
      ensures refreshed <==> !updateFailed
    {
      sent := RemoveAt(EntriesOf(item.checklistItems), index);
      refreshed := !updateFailed;
    }
  }
}
