/** The stored vault entry (components/vault/vault-layout.tsx) and the list
    and tag helpers that the add dialog, the edit dialog and the detail
    pane all apply to it. */
module VaultItems {
  import opened Common
  import opened JsString

  datatype ItemType = LoginItem | NoteItem | ChecklistItem

  datatype ChecklistEntry = ChecklistEntry(text: string, completed: bool)

  /** A row of `vault_items`; optional columns may be null or missing. */
  datatype VaultItem = VaultItem(
    id: string,
    userId: string,
    itemType: ItemType,
    title: string,
    username: Option<string>,
    password: Option<string>,
    websiteUrl: Option<string>,
    notes: Option<string>,
    tags: Option<seq<string>>,
    checklistItems: Option<seq<ChecklistEntry>>,
    createdAt: string,
    updatedAt: string)

  /** `items || []`: a missing checklist reads as the empty list. */
  function EntriesOf(items: Option<seq<ChecklistEntry>>): (r: seq<ChecklistEntry>)
    ensures items.None? ==> r == []
    ensures items.Some? ==> r == items.value
  {
    if items.Some? then items.value else []
  }

  // ---------------------------------------------------------------------
  // Checklist operations

  /** Adding `input` as an entry: nothing when it trims to empty, else the
      trimmed text is appended, not completed, after the existing entries. */
  function AppendEntry(items: seq<ChecklistEntry>, input: string): (r: Option<seq<ChecklistEntry>>)
    ensures r.None? <==> Trim(input) == ""
    ensures r.Some? ==> && |r.value| == |items| + 1
                        && r.value[..|items|] == items
                        && r.value[|items|] == ChecklistEntry(Trim(input), false)
  {
    var text := Trim(input);
    if text == "" then None else Some(items + [ChecklistEntry(text, false)])
  }

  /** `items.filter((_, i) => i !== index)`. */
  function RemoveAt(items: seq<ChecklistEntry>, index: int): (r: seq<ChecklistEntry>)
    ensures 0 <= index < |items| ==> r == items[..index] + items[index + 1..]
    ensures !(0 <= index < |items|) ==> r == items
  {
    if items == [] then []
    else (if index == 0 then [] else [items[0]]) + RemoveAt(items[1..], index - 1)
  }

  /** `items.map((item, i) => i === index ? {...item, completed: !item.completed} : item)`. */
  function ToggleAt(items: seq<ChecklistEntry>, index: int): (r: seq<ChecklistEntry>)
    ensures |r| == |items|
    ensures forall k :: 0 <= k < |items| ==> r[k].text == items[k].text
    ensures forall k :: 0 <= k < |items| ==>
              r[k].completed == (if k == index then !items[k].completed else items[k].completed)
  {
    seq(|items|, k requires 0 <= k < |items| =>
      if k == index then items[k].(completed := !items[k].completed) else items[k])
  }

  /** Toggling the same entry twice restores the list. */
  lemma ToggleTwice(items: seq<ChecklistEntry>, index: int)
    ensures ToggleAt(ToggleAt(items, index), index) == items
  {
    var r := ToggleAt(ToggleAt(items, index), index);
    assert forall k :: 0 <= k < |items| ==> r[k] == items[k];
  }

  // ---------------------------------------------------------------------
  // Tags

  /** A character absent from `s` is absent from its trimmed value. */
  lemma TrimKeepsAbsent(s: string, c: char)
    ensures c !in s ==> c !in Trim(s)
  {
    if c !in s {
      var a := TrimStart(s);
      var r := TrimEnd(a);
      TrimStartCuts(s);
      TrimEndCuts(a);
      SliceKeepsAbsent(s, |s| - |a|, |s|, c);
      assert s[|s| - |a|..|s|] == a;
      SliceKeepsAbsent(a, 0, |r|, c);
      assert a[0..|r|] == r;
      assert Trim(s) == r;
    }
  }

  lemma SliceKeepsAbsent(s: string, i: int, j: int, c: char)
    requires 0 <= i <= j <= |s| && c !in s
    ensures c !in s[i..j]
  {
  }

  /** A tag as the dialogs store it: non-empty, trimmed, comma-free. */
  predicate IsTag(t: string) {
    t != "" && IsTrimmed(t) && ',' !in t
  }

  /** What one piece contributes: its trimmed value, unless that is empty. */
  function KeptPiece(piece: string): (r: seq<string>)
    ensures r == [] <==> Trim(piece) == ""
    ensures r != [] ==> r == [Trim(piece)]
  {
    if Trim(piece) == "" then [] else [Trim(piece)]
  }

  /** `.map(tag => tag.trim()).filter(tag => tag.length > 0)`: the
      trimmed pieces, in order, without the empty ones. */
  function TrimNonEmpty(pieces: seq<string>): (r: seq<string>)
    ensures |r| <= |pieces|
    ensures forall k :: 0 <= k < |r| ==> r[k] != "" && IsTrimmed(r[k])
  {
    if pieces == [] then [] else KeptPiece(pieces[0]) + TrimNonEmpty(pieces[1..])
  }

  /** Comma-free pieces stay comma-free after trimming. */
  lemma {:induction false} TrimNonEmptyCommaFree(pieces: seq<string>)
    requires forall j :: 0 <= j < |pieces| ==> ',' !in pieces[j]
    ensures forall k :: 0 <= k < |TrimNonEmpty(pieces)| ==> ',' !in TrimNonEmpty(pieces)[k]
  {
    if pieces != [] {
      TrimKeepsAbsent(pieces[0], ',');
      TrimNonEmptyCommaFree(pieces[1..]);
      var head, rest := KeptPiece(pieces[0]), TrimNonEmpty(pieces[1..]);
      assert TrimNonEmpty(pieces) == head + rest;
      forall k | 0 <= k < |head + rest|
        ensures ',' !in (head + rest)[k]
      {
        if k >= |head| {
          assert (head + rest)[k] == rest[k - |head|];
        }
      }
    }
  }

  /** `tags.split(",").map(tag => tag.trim()).filter(tag => tag.length > 0)`. */
  function ParseTags(s: string): (r: seq<string>)
    ensures forall k :: 0 <= k < |r| ==> IsTag(r[k])
  {
    TrimNonEmptyCommaFree(Split(s, ','));
    TrimNonEmpty(Split(s, ','))
  }

  /** The filter works piece by piece: the result for two runs of pieces
      is the result for the first followed by the result for the second. */
  lemma {:induction false} TrimNonEmptyConcat(a: seq<string>, b: seq<string>)
    ensures TrimNonEmpty(a + b) == TrimNonEmpty(a) + TrimNonEmpty(b)
  {
    if a != [] {
      var head := KeptPiece(a[0]);
      assert (a + b)[0] == a[0] && (a + b)[1..] == a[1..] + b;
      assert TrimNonEmpty(a + b) == head + TrimNonEmpty(a[1..] + b);
      assert TrimNonEmpty(a) == head + TrimNonEmpty(a[1..]);
      TrimNonEmptyConcat(a[1..], b);
      AppendAssoc(head, TrimNonEmpty(a[1..]), TrimNonEmpty(b));
    } else {
      assert a + b == b;
    }
  }

  /** One piece contributes its trimmed value, or nothing when that value
      is empty. With `TrimNonEmptyConcat` this fixes the result for every
      list of pieces. */
  lemma TrimNonEmptySingle(p: string)
    ensures TrimNonEmpty([p]) == if Trim(p) == "" then [] else [Trim(p)]
  {
    assert [p][1..] == [];
  }

  /** A comma-free field is one piece: its trimmed value, unless blank. */
  lemma ParseTagsOfPiece(s: string)
    requires ',' !in s
    ensures ParseTags(s) == if Trim(s) == "" then [] else [Trim(s)]
  {
    SplitPrefix(s, "", ',');
    assert s + "" == s;
    assert Split("", ',') == [""];
    TrimNonEmptySingle(s);
  }

  /** At the first comma the field splits into the trimmed first piece
      (unless it is blank) followed by the tags of the rest, so the tags
      are the trimmed non-empty pieces in input order. */
  lemma ParseTagsAtComma(a: string, b: string)
    requires ',' !in a
    ensures ParseTags(a + [','] + b) == (if Trim(a) == "" then [] else [Trim(a)]) + ParseTags(b)
  {
    SplitAtSeparator(a, b, ',');
    TrimNonEmptyConcat([a], Split(b, ','));
    TrimNonEmptySingle(a);
  }

  /** `item.tags?.join(", ") || ""`: the tag field as the edit dialog loads it. */
  function JoinTags(tags: Option<seq<string>>): (r: string)
    ensures tags.None? || tags == Some([]) ==> r == ""
    ensures tags.Some? && tags.value != [] ==> StartsWith(r, tags.value[0])
    ensures tags.Some? && |tags.value| == 1 ==> r == tags.value[0]
  {
    if tags.Some? then Join(tags.value, ", ") else ""
  }

  /** Every tag but the first, as it follows a ", " separator. */
  function Spaced(tags: seq<string>): (r: seq<string>)
    ensures |r| == |tags|
    ensures forall k :: 0 <= k < |r| ==> r[k] == " " + tags[k]
  {
    if tags == [] then [] else [" " + tags[0]] + Spaced(tags[1..])
  }

  /** Splitting the joined field at commas gives the tags back, each but
      the first with the space of its separator in front. */
  lemma {:induction false} SplitJoinedTags(tags: seq<string>)
    requires |tags| >= 1
    requires forall k :: 0 <= k < |tags| ==> ',' !in tags[k]
    ensures Split(Join(tags, ", "), ',') == [tags[0]] + Spaced(tags[1..])
  {
    if |tags| == 1 {
      SplitPrefix(tags[0], "", ',');
      assert tags[0] + "" == tags[0];
    } else {
      var t, rest := tags[0], Join(tags[1..], ", ");
      assert Join(tags, ", ") == t + [','] + (" " + rest);
      SplitAtSeparator(t, " " + rest, ',');
      SplitPrefix(" ", rest, ',');
      SplitJoinedTags(tags[1..]);
      assert Split(rest, ',') == [tags[1]] + Spaced(tags[2..]);
      assert Spaced(tags[1..]) == [" " + tags[1]] + Spaced(tags[2..]);
    }
  }

  lemma TrimPiece(t: string, piece: string)
    requires IsTrimmed(t)
    requires piece == t || piece == " " + t
    ensures Trim(piece) == t
  {
    TrimOfTrimmed(t);
    if piece != t {
      TrimLeadingWhitespace(' ', t);
    }
  }

  /** Pieces that are tags, possibly after one leading space, trim back
      to exactly those tags. */
  lemma {:induction false} TrimNonEmptyOfTags(pieces: seq<string>, tags: seq<string>)
    requires |pieces| == |tags|
    requires forall k :: 0 <= k < |tags| ==> IsTag(tags[k])
    requires forall k :: 0 <= k < |tags| ==> pieces[k] == tags[k] || pieces[k] == " " + tags[k]
    ensures TrimNonEmpty(pieces) == tags
  {
    if pieces != [] {
      TrimPiece(tags[0], pieces[0]);
      TrimNonEmptyOfTags(pieces[1..], tags[1..]);
      assert tags == [tags[0]] + tags[1..];
    }
  }

  /** The pieces of the joined field trim back to the tags. */
  lemma TrimJoinedPieces(tags: seq<string>)
    requires |tags| >= 1
    requires forall k :: 0 <= k < |tags| ==> IsTag(tags[k])
    ensures TrimNonEmpty([tags[0]] + Spaced(tags[1..])) == tags
  {
    TrimNonEmptyOfTags([tags[0]] + Spaced(tags[1..]), tags);
  }

  /** Loading tags into the text field and parsing the field again gives
      back the same tags, in the same order. */
  lemma ParseJoinTags(tags: seq<string>)
    requires forall k :: 0 <= k < |tags| ==> IsTag(tags[k])
    ensures ParseTags(Join(tags, ", ")) == tags
  {
    if tags == [] {
      assert Split("", ',') == [""];
    } else {
      var pieces := Split(Join(tags, ", "), ',');
      SplitJoinedTags(tags);
      assert pieces == [tags[0]] + Spaced(tags[1..]);
      TrimJoinedPieces(tags);
      assert TrimNonEmpty(pieces) == tags;
    }
  }

  // ---------------------------------------------------------------------
  // Rows sent to the `vault_items` table

  /** A column value of an insert or update payload. */
  datatype Column =
    | Null
    | Text(text: string)
    | TagList(tags: seq<string>)
    | Entries(entries: seq<ChecklistEntry>)

  /** `s || null` on a text field. */
  function TextOrNull(s: string): (c: Column)
    ensures c == Null <==> s == ""
    ensures c != Null ==> c == Text(s)
  {
    if s == "" then Null else Text(s)
  }

  /** `tagsArray.length > 0 ? tagsArray : null` for the parsed tag field. */
  function TagsColumn(field: string): (c: Column)
    ensures c == Null <==> ParseTags(field) == []
    ensures c != Null ==> c == TagList(ParseTags(field))
    ensures c.TagList? ==> forall k :: 0 <= k < |c.tags| ==> IsTag(c.tags[k])
  {
    var parsed := ParseTags(field);
    if |parsed| > 0 then TagList(parsed) else Null
  }

  /** The editable fields shared by the add and edit dialogs. */
  datatype ItemForm = ItemForm(
    title: string,
    username: string,
    password: string,
    websiteUrl: string,
    notes: string,
    tags: string,
    checklistItems: seq<ChecklistEntry>)

  /** `value || ""`: an optional text column as a form field loads it. */
  function LoadedText(value: Option<string>): (s: string)
    ensures s == "" <==> value.None? || value == Some("")
    ensures s != "" ==> value == Some(s)
  {
    if value.Some? then value.value else ""
  }

  /** The value a dialog writes back for an optional text column it loaded
      unchanged: the text if there is any, else null. */
  function StoredText(value: Option<string>): (c: Column)
    ensures c == Null <==> value.None? || value == Some("")
    ensures c != Null ==> value.Some? && c == Text(value.value)
  {
    if value.Some? && value.value != "" then Text(value.value) else Null
  }

  /** The value a dialog writes back for a tag list it loaded unchanged. */
  function StoredTags(tags: Option<seq<string>>): (c: Column)
    ensures c == Null <==> tags.None? || tags == Some([])
    ensures c != Null ==> tags.Some? && c == TagList(tags.value)
  {
    if tags.Some? && tags.value != [] then TagList(tags.value) else Null
  }

  /** An optional text column survives loading into a field and saving. */
  lemma TextSurvivesEdit(value: Option<string>)
    ensures TextOrNull(LoadedText(value)) == StoredText(value)
  {
    if value.Some? {
      if value.value == "" {
        assert StoredText(value) == Null;
      } else {
        assert LoadedText(value) == value.value;
      }
    }
  }

  /** What the edit dialog saves for the tags of an item it loaded
      unchanged: the tags themselves, or null for a missing or empty list. */
  lemma TagsSurviveEdit(tags: Option<seq<string>>)
    requires tags.Some? ==> forall k :: 0 <= k < |tags.value| ==> IsTag(tags.value[k])
    ensures TagsColumn(JoinTags(tags)) == StoredTags(tags)
  {
    if tags.Some? {
      assert JoinTags(tags) == Join(tags.value, ", ");
      ParseJoinTags(tags.value);
    } else {
      ParseJoinTags([]);
    }
  }
}
