/** The summary card of an item in the list
    (components/vault/vault-item-card.tsx): checklist progress, the
    website as displayed, and the tag badges. */
module ItemCard {
  import opened Common
  import opened JsString
  import opened VaultItems

  datatype Progress = Progress(total: nat, completed: nat)

  /** `entries.filter(i => i.completed).length`. */
  function CountCompleted(entries: seq<ChecklistEntry>): (n: nat)
    ensures n <= |entries|
  {
    if entries == [] then 0
    else (if entries[0].completed then 1 else 0) + CountCompleted(entries[1..])
  }

  /** `getChecklistProgress`: null unless the item is a checklist with a
      list (an empty list counts); otherwise the list's length and the
      number of completed entries. */
  function ChecklistProgress(item: VaultItem): (p: Option<Progress>)
    ensures p.Some? <==> item.itemType == ChecklistItem && item.checklistItems.Some?
    ensures p.Some? ==> && p.value.total == |item.checklistItems.value|
                        && p.value.completed == CountCompleted(item.checklistItems.value)
                        && p.value.completed <= p.value.total
  {
    if item.itemType != ChecklistItem || item.checklistItems.None? then None
    else Some(Progress(|item.checklistItems.value|, CountCompleted(item.checklistItems.value)))
  }

  /** The count over two lists put together is the sum of their counts. */
  lemma {:induction false} CountCompletedConcat(a: seq<ChecklistEntry>, b: seq<ChecklistEntry>)
    ensures CountCompleted(a + b) == CountCompleted(a) + CountCompleted(b)
  {
    if a != [] {
      CountCompletedConcat(a[1..], b);
      assert (a + b)[1..] == a[1..] + b;
    } else {
      assert a + b == b;
    }
  }

  /** An entry added by a dialog or the detail pane is never completed, so
      adding one leaves the completed count as it was. */
  lemma CountAfterAppendEntry(entries: seq<ChecklistEntry>, input: string)
    requires AppendEntry(entries, input).Some?
    ensures CountCompleted(AppendEntry(entries, input).value) == CountCompleted(entries)
  {
    var v := AppendEntry(entries, input).value;
    CountAt(v, |entries|);
    assert v[|entries| + 1..] == [];
  }

  /** Toggling an entry moves the completed count by one, up or down. */
  lemma CountAfterToggle(entries: seq<ChecklistEntry>, index: int)
    requires 0 <= index < |entries|
    ensures CountCompleted(ToggleAt(entries, index))
            == CountCompleted(entries) + (if entries[index].completed then -1 else 1)
  {
    var t := ToggleAt(entries, index);
    ToggleKeepsOthers(entries, index);
    CountAt(t, index);
    CountAt(entries, index);
  }

  /** Toggling leaves the entries before and after the toggled one alone. */
  lemma ToggleKeepsOthers(entries: seq<ChecklistEntry>, index: int)
    requires 0 <= index < |entries|
    ensures ToggleAt(entries, index)[..index] == entries[..index]
    ensures ToggleAt(entries, index)[index + 1..] == entries[index + 1..]
  {
    var t := ToggleAt(entries, index);
    assert forall k :: 0 <= k < index ==> t[..index][k] == t[k] == entries[k];
    assert forall k :: index < k < |t| ==> t[k] == entries[k];
    var after := t[index + 1..];
    assert forall k :: 0 <= k < |after| ==> after[k] == entries[index + 1 + k];
  }

  /** Removing an entry lowers the completed count by one exactly when the
      removed entry was completed. */
  lemma CountAfterRemove(entries: seq<ChecklistEntry>, index: int)
    requires 0 <= index < |entries|
    ensures CountCompleted(RemoveAt(entries, index))
            == CountCompleted(entries) - (if entries[index].completed then 1 else 0)
  {
    CountAt(entries, index);
    CountCompletedConcat(entries[..index], entries[index + 1..]);
  }

  /** The count over a list, split around one of its entries. */
  lemma {:induction false} CountAt(entries: seq<ChecklistEntry>, index: int)
    requires 0 <= index < |entries|
    ensures CountCompleted(entries)
            == CountCompleted(entries[..index]) + (if entries[index].completed then 1 else 0)
               + CountCompleted(entries[index + 1..])
  {
    var tail := entries[1..];
    if index == 0 {
      assert entries[..0] == [] && entries[1..] == tail;
    } else {
      CountAt(tail, index - 1);
      assert entries[..index][1..] == tail[..index - 1];
      assert tail[index..] == entries[index + 1..] && tail[index - 1] == entries[index];
    }
  }

  // ---------------------------------------------------------------------
  // The website line

  predicate HasScheme(u: string) {
    StartsWith(u, "http://") || StartsWith(u, "https://")
  }

  /** `replace(/^https?:\/\//, "")`: one leading scheme is dropped. */
  function StripScheme(u: string): (r: string)
    ensures HasScheme(u) ==> u == "http://" + r || u == "https://" + r
    ensures !HasScheme(u) ==> r == u
  {
    if StartsWith(u, "https://") then u[8..]
    else if StartsWith(u, "http://") then u[7..]
    else u
  }

  /** `replace(/\/$/, "")`: one trailing slash is dropped. */
  function StripTrailingSlash(s: string): (r: string)
    ensures s != [] && s[|s| - 1] == '/' ==> s == r + "/"
    ensures !(s != [] && s[|s| - 1] == '/') ==> r == s
  {
    if s != [] && s[|s| - 1] == '/' then s[..|s| - 1] else s
  }

  /** The website line: shown only for a non-empty URL, without its
      scheme and its trailing slash. */
  function DisplayUrl(websiteUrl: Option<string>): (r: Option<string>)
    ensures r.None? <==> websiteUrl.None? || websiteUrl == Some("")
    ensures r.Some? ==> r.value == StripTrailingSlash(StripScheme(websiteUrl.value))
  {
    if websiteUrl.Some? && websiteUrl.value != "" then Some(StripTrailingSlash(StripScheme(websiteUrl.value)))
    else None
  }

  /** Whichever of the six decorations (no scheme, `http://`, `https://`;
      with or without a trailing slash) a host was typed with, the card
      shows the host itself. */
  lemma DisplayOfDecoratedHost(scheme: string, host: string, slash: string)
    requires scheme == "" || scheme == "http://" || scheme == "https://"
    requires slash == "" || slash == "/"
    requires scheme == "" ==> !HasScheme(host + slash)
    requires slash == "" ==> host == [] || host[|host| - 1] != '/'
    requires scheme + host + slash != ""
    ensures DisplayUrl(Some(scheme + host + slash)) == Some(host)
  {
    assert scheme + host + slash == scheme + (host + slash);
    StripDecoration(scheme, host + slash);
    StripSlashDecoration(host, slash);
  }

  /** A scheme put in front is the one taken off. */
  lemma StripDecoration(scheme: string, s: string)
    requires scheme == "" || scheme == "http://" || scheme == "https://"
    requires scheme == "" ==> !HasScheme(s)
    ensures StripScheme(scheme + s) == s
  {
    var u := scheme + s;
    if scheme == "https://" {
      assert u[..8] == "https://" && u[8..] == s;
    } else if scheme == "http://" {
      assert u[..7] == "http://" && u[7..] == s;
      assert u[4] == ':';
    } else {
      assert u == s;
    }
  }

  /** A slash put at the end is the one taken off. */
  lemma StripSlashDecoration(host: string, slash: string)
    requires slash == "" || slash == "/"
    requires slash == "" ==> host == [] || host[|host| - 1] != '/'
    ensures StripTrailingSlash(host + slash) == host
  {
    var s := host + slash;
    if slash == "/" {
      assert s[..|s| - 1] == host;
    } else {
      assert s == host;
    }
  }

  // ---------------------------------------------------------------------
  // Tag badges

  const MaxBadges: nat := 3

  /** The badges of the card: up to three tags, and a `+n` badge for the
      rest. */
  datatype Badges = Badges(shown: seq<string>, overflow: Option<nat>)

  /** The badge row, shown only when the item has at least one tag. */
  function TagBadges(tags: Option<seq<string>>): (b: Option<Badges>)
    ensures b.Some? <==> tags.Some? && |tags.value| > 0
    ensures b.Some? ==> && |b.value.shown| == (if |tags.value| <= MaxBadges then |tags.value| else MaxBadges)
                        && b.value.shown == tags.value[..|b.value.shown|]
    ensures b.Some? ==> (b.value.overflow.Some? <==> |tags.value| > MaxBadges)
    ensures b.Some? && b.value.overflow.Some? ==> b.value.overflow.value == |tags.value| - MaxBadges
  {
    if tags.None? || |tags.value| == 0 then None
    else
      var t := tags.value;
      Some(Badges(if |t| <= MaxBadges then t else t[..MaxBadges],
                  if |t| > MaxBadges then Some(|t| - MaxBadges) else None))
  }

  /** The badges account for every tag: the shown ones followed by the
      ones the `+n` badge counts are the whole list. */
  lemma BadgesCoverTags(tags: seq<string>)
    requires |tags| > 0
    ensures var b := TagBadges(Some(tags)).value;
      && b.shown + tags[|b.shown|..] == tags
      && |b.shown| + (if b.overflow.Some? then b.overflow.value else 0) == |tags|
  {
    var b := TagBadges(Some(tags)).value;
    assert tags == tags[..|b.shown|] + tags[|b.shown|..];
  }
}
