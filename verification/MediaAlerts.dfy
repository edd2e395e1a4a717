/**
 The outbox entries of one deletion: the text chunks of each message, then one
 entry per album or lone-media message, keyed so that replays add nothing.
 */
module MediaAlerts {
  import opened Prelude

  /** A catalogue row of a deleted message. */
  datatype File = File(id: nat, message: nat, index: nat, group: Option<nat>)

  /** What a payload gathers: an album, or the files of one message. */
  datatype Key = Album(group: nat) | Lone(message: nat)

  datatype Group = Group(key: Key, anchor: nat, files: seq<File>)

  /** The part of the anti-duplicate key one deletion can vary. */
  datatype Slot = Slot(message: nat, chunk: nat)

  datatype Payload = TextChunk | MediaEntry(key: Key, files: seq<File>)

  type Entries = map<Slot, Payload>

  function KeyOf(f: File): Key {
    match f.group
    case Some(g) => Album(g)
    case None => Lone(f.message)
  }

  // ---------------------------------------------------------------------
  // Selections
  // ---------------------------------------------------------------------

  /** The files of one key, in order. */
  function FilesOf(files: seq<File>, key: Key): (r: seq<File>)
    ensures forall f :: f in r <==> f in files && KeyOf(f) == key
  {
    if files == [] then []
    else
      var last := files[|files| - 1];
      assert files == files[..|files| - 1] + [last];
      FilesOf(files[..|files| - 1], key) + if KeyOf(last) == key then [last] else []
  }

  /** The rows on disk, in order. */
  function Selected(catalogue: seq<File>, stored: set<nat>): (r: seq<File>)
    ensures forall f :: f in r <==> f in catalogue && f.id in stored
  {
    if catalogue == [] then []
    else
      var last := catalogue[|catalogue| - 1];
      assert catalogue == catalogue[..|catalogue| - 1] + [last];
      Selected(catalogue[..|catalogue| - 1], stored) + if last.id in stored then [last] else []
  }

  predicate Precedes(a: File, b: File) {
    a.message < b.message || (a.message == b.message && a.index < b.index)
  }

  /** The order an album was composed in. */
  predicate Sorted(files: seq<File>) {
    forall i, j :: 0 <= i < j < |files| ==> Precedes(files[i], files[j])
  }

  lemma SortedAppend(files: seq<File>, last: File)
    requires Sorted(files) && forall f :: f in files ==> Precedes(f, last)
    ensures Sorted(files + [last])
  {
    assert forall i :: 0 <= i < |files| ==> files[i] in files;
  }

  lemma LastPrecedesNone(rest: seq<File>, last: File)
    requires Sorted(rest + [last])
    ensures Sorted(rest) && forall f :: f in rest ==> Precedes(f, last)
  {
    var all := rest + [last];
    assert forall i :: 0 <= i < |rest| ==> all[i] == rest[i];
    forall f | f in rest ensures Precedes(f, last) {
      var i :| 0 <= i < |rest| && rest[i] == f;
      assert Precedes(all[i], all[|rest|]);
    }
  }

  lemma {:induction false} SelectedIsSorted(files: seq<File>, stored: set<nat>)
    requires Sorted(files)
    ensures Sorted(Selected(files, stored))
  {
    if files != [] {
      var n := |files| - 1;
      assert files == files[..n] + [files[n]];
      LastPrecedesNone(files[..n], files[n]);
      SelectedIsSorted(files[..n], stored);
      SortedAppend(Selected(files[..n], stored), files[n]);
      assert Selected(files[..n], stored) + [] == Selected(files[..n], stored);
    }
  }

  lemma {:induction false} FilesOfIsSorted(files: seq<File>, key: Key)
    requires Sorted(files)
    ensures Sorted(FilesOf(files, key))
  {
    if files != [] {
      var n := |files| - 1;
      assert files == files[..n] + [files[n]];
      LastPrecedesNone(files[..n], files[n]);
      FilesOfIsSorted(files[..n], key);
      SortedAppend(FilesOf(files[..n], key), files[n]);
      assert FilesOf(files[..n], key) + [] == FilesOf(files[..n], key);
    }
  }

  // ---------------------------------------------------------------------
  // Anchors
  // ---------------------------------------------------------------------

  /** The smallest message of the key in the catalogue, whatever is on disk. */
  ghost predicate IsAnchor(catalogue: seq<File>, key: Key, message: nat) {
    && (exists f :: f in catalogue && KeyOf(f) == key && f.message == message)
    && forall f :: f in catalogue && KeyOf(f) == key ==> message <= f.message
  }

  ghost predicate AreAnchors(catalogue: seq<File>, anchors: map<nat, nat>) {
    && (forall g :: g in anchors ==> IsAnchor(catalogue, Album(g), anchors[g]))
    && forall f :: f in catalogue && f.group.Some? ==> f.group.value in anchors
  }

  method SelectAlbumAnchors(catalogue: seq<File>) returns (anchors: map<nat, nat>)
    ensures AreAnchors(catalogue, anchors)
  {
    anchors := map[];
    var i := 0;
    while i < |catalogue|
      invariant 0 <= i <= |catalogue| && AreAnchors(catalogue[..i], anchors)
    {
      var f := catalogue[i];
      assert catalogue[..i + 1] == catalogue[..i] + [f];
      if f.group.Some? && (f.group.value !in anchors || f.message < anchors[f.group.value]) {
        anchors := anchors[f.group.value := f.message];
      }
      i := i + 1;
    }
    assert catalogue[..i] == catalogue;
  }

  function AnchorOf(anchors: map<nat, nat>, f: File): nat {
    if f.group.Some? && f.group.value in anchors then anchors[f.group.value] else f.message
  }

  // ---------------------------------------------------------------------
  // Grouping
  // ---------------------------------------------------------------------

  /** One group per key, holding all its files in order; `at` says where. */
  ghost predicate IsGrouping(files: seq<File>, anchors: map<nat, nat>, groups: seq<Group>, at: map<Key, nat>) {
    AreGroups(files, anchors, groups) && Indexes(groups, at) && forall f :: f in files ==> KeyOf(f) in at
  }

  ghost predicate AreGroups(files: seq<File>, anchors: map<nat, nat>, groups: seq<Group>) {
    forall g {:trigger IsGroup(files, anchors, groups[g])} :: 0 <= g < |groups| ==> IsGroup(files, anchors, groups[g])
  }

  ghost predicate Indexes(groups: seq<Group>, at: map<Key, nat>) {
    && (forall g {:trigger Locates(at, groups[g].key, g)} :: 0 <= g < |groups| ==> Locates(at, groups[g].key, g))
    && (forall key :: key in at ==> at[key] < |groups| && groups[at[key]].key == key)
  }

  predicate Locates(at: map<Key, nat>, key: Key, g: nat) {
    key in at && at[key] == g
  }

  ghost predicate IsGroup(files: seq<File>, anchors: map<nat, nat>, group: Group) {
    && group.files == FilesOf(files, group.key) && group.files != []
    && group.anchor == AnchorOf(anchors, group.files[0])
  }

  /** Appending a file changes the group of its own key, or starts it. */
  lemma FilesOfAppend(files: seq<File>, f: File, key: Key)
    ensures FilesOf(files + [f], key) == FilesOf(files, key) + if KeyOf(f) == key then [f] else []
  {
    assert (files + [f])[..|files|] == files;
  }

  lemma OtherGroup(files: seq<File>, anchors: map<nat, nat>, group: Group, f: File)
    requires IsGroup(files, anchors, group) && group.key != KeyOf(f)
    ensures IsGroup(files + [f], anchors, group)
  {
    FilesOfAppend(files, f, group.key);
    assert group.files + [] == group.files;
  }

  lemma OwnGroup(files: seq<File>, anchors: map<nat, nat>, group: Group, f: File)
    requires IsGroup(files, anchors, group) && group.key == KeyOf(f)
    ensures IsGroup(files + [f], anchors, group.(files := group.files + [f]))
  {
    FilesOfAppend(files, f, group.key);
  }

  lemma NewGroup(files: seq<File>, anchors: map<nat, nat>, f: File)
    requires forall x :: x in files ==> KeyOf(x) != KeyOf(f)
    ensures IsGroup(files + [f], anchors, Group(KeyOf(f), AnchorOf(anchors, f), [f]))
  {
    FilesOfAppend(files, f, KeyOf(f));
    NoFiles(files, KeyOf(f));
  }

  lemma {:induction false} NoFiles(files: seq<File>, key: Key)
    requires forall f :: f in files ==> KeyOf(f) != key
    ensures FilesOf(files, key) == []
  {
    if files != [] {
      var n := |files| - 1;
      assert files[n] in files;
      NoFiles(files[..n], key);
    }
  }

  method GroupMedia(files: seq<File>, anchors: map<nat, nat>) returns (groups: seq<Group>, ghost at: map<Key, nat>)
    ensures IsGrouping(files, anchors, groups, at)
    ensures forall g {:trigger groups[g]} :: 0 <= g < |groups| ==> IsGroup(files, anchors, groups[g])
    ensures forall g, h :: 0 <= g < h < |groups| ==> groups[g].key != groups[h].key
  {
    groups, at := [], map[];
    var byAlbum: map<nat, nat>, byMessage: map<nat, nat> := map[], map[];
    var i := 0;
    while i < |files|
      invariant 0 <= i <= |files| && IsGrouping(files[..i], anchors, groups, at)
      invariant forall a :: a in byAlbum <==> Album(a) in at
      invariant forall a :: a in byAlbum ==> byAlbum[a] == at[Album(a)]
      invariant forall m :: m in byMessage <==> Lone(m) in at
      invariant forall m :: m in byMessage ==> byMessage[m] == at[Lone(m)]
    {
      var f := files[i];
      assert files[..i + 1] == files[..i] + [f];
      var found := match f.group
        case Some(a) => if a in byAlbum then Some(byAlbum[a]) else None
        case None => if f.message in byMessage then Some(byMessage[f.message]) else None;
      if found.Some? {
        GroupExtended(files[..i], anchors, groups, at, f);
        groups := groups[found.value := groups[found.value].(files := groups[found.value].files + [f])];
      } else {
        GroupStarted(files[..i], anchors, groups, at, f);
        groups, at := groups + [Group(KeyOf(f), AnchorOf(anchors, f), [f])], at[KeyOf(f) := |groups|];
        match f.group {
          case Some(a) => byAlbum := byAlbum[a := |groups| - 1];
          case None => byMessage := byMessage[f.message := |groups| - 1];
        }
      }
      i := i + 1;
    }
    assert files[..i] == files;
    forall g, h | 0 <= g < h < |groups| ensures groups[g].key != groups[h].key {
      assert Locates(at, groups[g].key, g) && Locates(at, groups[h].key, h);
    }
    forall g | 0 <= g < |groups| ensures IsGroup(files, anchors, groups[g]) {
    }
  }

  lemma GroupExtended(files: seq<File>, anchors: map<nat, nat>, groups: seq<Group>, at: map<Key, nat>, f: File)
    requires IsGrouping(files, anchors, groups, at) && KeyOf(f) in at
    ensures var g := at[KeyOf(f)];
      IsGrouping(files + [f], anchors, groups[g := groups[g].(files := groups[g].files + [f])], at)
  {
    var own := at[KeyOf(f)];
    var groups' := groups[own := groups[own].(files := groups[own].files + [f])];
    forall g | 0 <= g < |groups'| ensures Locates(at, groups'[g].key, g) {
      assert Locates(at, groups[g].key, g);
    }
    forall g | 0 <= g < |groups'| ensures IsGroup(files + [f], anchors, groups'[g]) {
      assert IsGroup(files, anchors, groups[g]) && Locates(at, groups[g].key, g);
      if g == own {
        OwnGroup(files, anchors, groups[g], f);
      } else {
        OtherGroup(files, anchors, groups[g], f);
      }
    }
  }

  lemma IndexesStarted(groups: seq<Group>, at: map<Key, nat>, started: Group)
    requires Indexes(groups, at) && started.key !in at
    ensures Indexes(groups + [started], at[started.key := |groups|])
  {
    var groups', at' := groups + [started], at[started.key := |groups|];
    forall g | 0 <= g < |groups'| ensures Locates(at', groups'[g].key, g) {
      assert g < |groups| ==> Locates(at, groups[g].key, g);
    }
  }

  lemma OldGroupStays(files: seq<File>, anchors: map<nat, nat>, groups: seq<Group>, at: map<Key, nat>, f: File, g: nat)
    requires IsGrouping(files, anchors, groups, at) && KeyOf(f) !in at && g < |groups|
    ensures IsGroup(files + [f], anchors, groups[g])
  {
    assert IsGroup(files, anchors, groups[g]) && Locates(at, groups[g].key, g);
    OtherGroup(files, anchors, groups[g], f);
  }

  lemma AreGroupsAndOne(files: seq<File>, anchors: map<nat, nat>, groups: seq<Group>, started: Group)
    requires AreGroups(files, anchors, groups) && IsGroup(files, anchors, started)
    ensures AreGroups(files, anchors, groups + [started])
  {
    var groups' := groups + [started];
    forall g | 0 <= g < |groups'| ensures IsGroup(files, anchors, groups'[g]) {
      assert g < |groups| ==> IsGroup(files, anchors, groups[g]);
    }
  }

  lemma GroupStarted(files: seq<File>, anchors: map<nat, nat>, groups: seq<Group>, at: map<Key, nat>, f: File)
    requires IsGrouping(files, anchors, groups, at) && KeyOf(f) !in at
    ensures var started := Group(KeyOf(f), AnchorOf(anchors, f), [f]);
      IsGrouping(files + [f], anchors, groups + [started], at[KeyOf(f) := |groups|])
  {
    var started := Group(KeyOf(f), AnchorOf(anchors, f), [f]);
    IndexesStarted(groups, at, started);
    NewGroup(files, anchors, f);
    forall g | 0 <= g < |groups| ensures IsGroup(files + [f], anchors, groups[g]) {
      OldGroupStays(files, anchors, groups, at, f, g);
    }
    AreGroupsAndOne(files + [f], anchors, groups, started);
  }

  // ---------------------------------------------------------------------
  // One deletion
  // ---------------------------------------------------------------------

  /** What stays the same however often the deletion is processed: how many text
      chunks each message found makes, and their catalogue rows. */
  datatype Deletion = Deletion(texts: map<nat, nat>, catalogue: seq<File>)

  /** Every alert has a text; the rows are those of the messages found, by message
      and index; a message belongs to one album at most. */
  ghost predicate IsDeletion(d: Deletion) {
    && (forall m :: m in d.texts ==> d.texts[m] >= 1)
    && Sorted(d.catalogue)
    && (forall f :: f in d.catalogue ==> f.message in d.texts)
    && forall f, g :: f in d.catalogue && g in d.catalogue && f.message == g.message ==> f.group == g.group
  }

  predicate IsText(d: Deletion, slot: Slot) {
    slot.message in d.texts && slot.chunk < d.texts[slot.message]
  }

  /** The slot right after the text chunks of the anchor of a key. */
  ghost predicate IsMediaSlot(d: Deletion, key: Key, slot: Slot) {
    slot.message in d.texts && slot.chunk == d.texts[slot.message] && IsAnchor(d.catalogue, key, slot.message)
  }

  /** The entry holding all files of its key that are on disk. */
  ghost predicate IsMediaEntry(d: Deletion, stored: set<nat>, p: Payload) {
    p.MediaEntry? && p.files == FilesOf(Selected(d.catalogue, stored), p.key) && p.files != []
  }

  /** One processing of the deletion: nothing is overwritten, every text chunk and
      every entry due is there, and nothing else is new. */
  ghost predicate Processed(d: Deletion, stored: set<nat>, before: Entries, after: Entries) {
    && (forall slot :: slot in before ==> slot in after && after[slot] == before[slot])
    && (forall slot :: IsText(d, slot) ==> slot in after)
    && (forall f :: f in Selected(d.catalogue, stored) ==>
      exists slot :: slot in after && IsMediaSlot(d, KeyOf(f), slot))
    && (forall slot :: slot in after && slot !in before ==>
      if IsText(d, slot) then after[slot] == TextChunk
      else IsMediaEntry(d, stored, after[slot]) && IsMediaSlot(d, after[slot].key, slot))
  }

  /** Distinct keys have distinct anchors: each message belongs to one key. */
  lemma AnchorsTellKeysApart(d: Deletion, a: Key, b: Key, message: nat)
    requires IsDeletion(d) && IsAnchor(d.catalogue, a, message) && IsAnchor(d.catalogue, b, message)
    ensures a == b
  {
    var f :| f in d.catalogue && KeyOf(f) == a && f.message == message;
    var g :| g in d.catalogue && KeyOf(g) == b && g.message == message;
  }

  lemma GroupAnchors(d: Deletion, stored: set<nat>, anchors: map<nat, nat>, group: Group)
    requires IsDeletion(d) && AreAnchors(d.catalogue, anchors)
    requires IsGroup(Selected(d.catalogue, stored), anchors, group)
    ensures IsAnchor(d.catalogue, group.key, group.anchor) && group.anchor in d.texts
  {
    var f := group.files[0];
    assert f in group.files;
    assert f in d.catalogue && KeyOf(f) == group.key;
  }

  class Outbox {
    var entries: Entries

    constructor ()
      ensures entries == map[]
    {
      entries := map[];
    }

    /** ON CONFLICT DO NOTHING. */
    method Insert(slot: Slot, p: Payload)
      modifies this
      ensures entries == if slot in old(entries) then old(entries) else old(entries)[slot := p]
    {
      if slot !in entries {
        entries := entries[slot := p];
      }
    }

    /** The text chunks of every message found. */
    method InsertTexts(texts: map<nat, nat>) returns (chunkCount: map<nat, nat>)
      requires forall m :: m in texts ==> texts[m] >= 1
      modifies this
      ensures chunkCount == texts
      ensures forall slot :: slot in old(entries) ==> slot in entries && entries[slot] == old(entries)[slot]
      ensures forall slot: Slot :: slot.message in texts && slot.chunk < texts[slot.message] ==> slot in entries
      ensures forall slot :: slot in entries && slot !in old(entries) ==>
        slot.message in texts && slot.chunk < texts[slot.message] && entries[slot] == TextChunk
    {
      chunkCount := map[];
      var found := texts.Keys;
      while found != {}
        invariant found <= texts.Keys && chunkCount == map m | m in texts && m !in found :: texts[m]
        invariant forall slot :: slot in old(entries) ==> slot in entries && entries[slot] == old(entries)[slot]
        invariant forall slot: Slot ::
          slot.message in texts && slot.message !in found && slot.chunk < texts[slot.message] ==> slot in entries
        invariant forall slot :: slot in entries && slot !in old(entries) ==>
          slot.message in texts && slot.chunk < texts[slot.message] && entries[slot] == TextChunk
        decreases found
      {
        var m: nat :| m in found;
        var index := 0;
        while index < texts[m]
          invariant 0 <= index <= texts[m]
          invariant forall slot :: slot in old(entries) ==> slot in entries && entries[slot] == old(entries)[slot]
          invariant forall slot: Slot ::
            slot.message in texts && slot.message !in found && slot.chunk < texts[slot.message] ==> slot in entries
          invariant forall c: nat :: c < index ==> Slot(m, c) in entries
          invariant forall slot :: slot in entries && slot !in old(entries) ==>
            slot.message in texts && slot.chunk < texts[slot.message] && entries[slot] == TextChunk
        {
          Insert(Slot(m, index), TextChunk);
          index := index + 1;
        }
        chunkCount := chunkCount[m := index];
        found := found - {m};
      }
    }

    /** One entry per group, on the next chunk of its anchor. */
    method EnqueueMedia(chunkCount: map<nat, nat>, groups: seq<Group>)
      requires forall g {:trigger groups[g]} :: 0 <= g < |groups| ==> groups[g].anchor in chunkCount
      requires forall g, h :: 0 <= g < h < |groups| ==> groups[g].anchor != groups[h].anchor
      modifies this
      ensures forall slot :: slot in old(entries) ==> slot in entries && entries[slot] == old(entries)[slot]
      ensures forall g {:trigger groups[g]} :: 0 <= g < |groups| ==> SlotOf(chunkCount, groups[g]) in entries
      ensures forall slot :: slot in entries && slot !in old(entries) ==>
        exists g :: 0 <= g < |groups| && slot == SlotOf(chunkCount, groups[g])
          && entries[slot] == MediaEntry(groups[g].key, groups[g].files)
    {
      var counts := chunkCount;
      var i := 0;
      while i < |groups|
        invariant 0 <= i <= |groups|
        invariant forall g {:trigger groups[g]} :: i <= g < |groups| ==>
          groups[g].anchor in counts && counts[groups[g].anchor] == chunkCount[groups[g].anchor]
        invariant forall slot :: slot in old(entries) ==> slot in entries && entries[slot] == old(entries)[slot]
        invariant forall g {:trigger groups[g]} :: 0 <= g < i ==> SlotOf(chunkCount, groups[g]) in entries
        invariant forall slot :: slot in entries && slot !in old(entries) ==>
          exists g :: 0 <= g < i && slot == SlotOf(chunkCount, groups[g])
            && entries[slot] == MediaEntry(groups[g].key, groups[g].files)
      {
        var group := groups[i];
        var index := counts[group.anchor];
        Insert(Slot(group.anchor, index), MediaEntry(group.key, group.files));
        counts := counts[group.anchor := index + 1];
        i := i + 1;
      }
    }

    /** One processing of a deletion, in one transaction. */
    method MarkDeleted(d: Deletion, stored: set<nat>)
      requires IsDeletion(d)
      modifies this
      ensures Processed(d, stored, old(entries), entries)
    {
      var chunkCount := InsertTexts(d.texts);
      ghost var withTexts := entries;
      var files := Selected(d.catalogue, stored);
      var anchors := SelectAlbumAnchors(d.catalogue);
      var groups;
      ghost var at;
      groups, at := GroupMedia(files, anchors);
      AnchorsDiffer(d, stored, anchors, groups, at);
      EnqueueMedia(chunkCount, groups);
      forall f | f in files ensures exists slot :: slot in entries && IsMediaSlot(d, KeyOf(f), slot) {
        var g := at[KeyOf(f)];
        GroupIsDue(d, stored, anchors, groups, at, g);
      }
      forall slot | slot in entries && slot !in withTexts
        ensures IsMediaEntry(d, stored, entries[slot]) && IsMediaSlot(d, entries[slot].key, slot) && !IsText(d, slot)
      {
        var g :| 0 <= g < |groups| && slot == SlotOf(chunkCount, groups[g])
          && entries[slot] == MediaEntry(groups[g].key, groups[g].files);
        GroupIsDue(d, stored, anchors, groups, at, g);
      }
    }
  }

  function SlotOf(chunkCount: map<nat, nat>, group: Group): Slot
    requires group.anchor in chunkCount
  {
    Slot(group.anchor, chunkCount[group.anchor])
  }

  lemma GroupIsDue(d: Deletion, stored: set<nat>, anchors: map<nat, nat>, groups: seq<Group>, at: map<Key, nat>, g: nat)
    requires IsDeletion(d) && AreAnchors(d.catalogue, anchors) && g < |groups|
    requires IsGrouping(Selected(d.catalogue, stored), anchors, groups, at)
    ensures groups[g].anchor in d.texts && IsMediaSlot(d, groups[g].key, SlotOf(d.texts, groups[g]))
    ensures IsMediaEntry(d, stored, MediaEntry(groups[g].key, groups[g].files))
  {
    assert IsGroup(Selected(d.catalogue, stored), anchors, groups[g]);
    GroupAnchors(d, stored, anchors, groups[g]);
  }

  lemma AnchorsDiffer(d: Deletion, stored: set<nat>, anchors: map<nat, nat>, groups: seq<Group>, at: map<Key, nat>)
    requires IsDeletion(d) && AreAnchors(d.catalogue, anchors)
    requires IsGrouping(Selected(d.catalogue, stored), anchors, groups, at)
    ensures forall g {:trigger groups[g]} :: 0 <= g < |groups| ==> groups[g].anchor in d.texts
    ensures forall g, h :: 0 <= g < h < |groups| ==> groups[g].anchor != groups[h].anchor
  {
    forall g | 0 <= g < |groups| ensures groups[g].anchor in d.texts {
      GroupIsDue(d, stored, anchors, groups, at, g);
    }
    forall g, h | 0 <= g < h < |groups| ensures groups[g].anchor != groups[h].anchor {
      assert Locates(at, groups[g].key, g) && Locates(at, groups[h].key, h);
      GroupIsDue(d, stored, anchors, groups, at, g);
      GroupIsDue(d, stored, anchors, groups, at, h);
      if groups[g].anchor == groups[h].anchor {
        AnchorsTellKeysApart(d, groups[g].key, groups[h].key, groups[g].anchor);
      }
    }
  }

  // ---------------------------------------------------------------------
  // Replays
  // ---------------------------------------------------------------------

  /** The deletion processed again and again, with any files on disk each time,
      from an outbox that knew nothing of its messages. */
  ghost predicate AreReplays(d: Deletion, outboxes: seq<Entries>, stored: seq<set<nat>>) {
    && IsDeletion(d) && |outboxes| == |stored| + 1
    && (forall slot :: slot in outboxes[0] ==> slot.message !in d.texts)
    && forall i :: 0 <= i < |stored| ==> Processed(d, stored[i], outboxes[i], outboxes[i + 1])
  }

  ghost predicate SlotOk(d: Deletion, entries: Entries, slot: Slot)
    requires slot in entries
  {
    if IsText(d, slot) then entries[slot] == TextChunk
    else
      && entries[slot].MediaEntry? && IsMediaSlot(d, entries[slot].key, slot)
      && forall f :: f in entries[slot].files ==> KeyOf(f) == entries[slot].key
  }

  lemma {:induction false} ReplaysKeepSlots(
    d: Deletion, outboxes: seq<Entries>, stored: seq<set<nat>>, k: nat, slot: Slot)
    requires AreReplays(d, outboxes, stored) && k < |outboxes| && slot in outboxes[k] && slot.message in d.texts
    ensures SlotOk(d, outboxes[k], slot)
  {
    if k > 0 {
      var before := k - 1;
      assert Processed(d, stored[before], outboxes[before], outboxes[before + 1]);
      if slot in outboxes[before] {
        ReplaysKeepSlots(d, outboxes, stored, before, slot);
      }
    }
  }

  /** Replays never duplicate: however the downloads progress between them, an
      album or a lone-media message has at most one entry, and no entry takes the
      slot of a text chunk. */
  lemma ReplaysNeverDuplicate(
      d: Deletion, outboxes: seq<Entries>, stored: seq<set<nat>>, k: nat, a: Slot, b: Slot)
    requires AreReplays(d, outboxes, stored) && k < |outboxes|
    requires a in outboxes[k] && b in outboxes[k] && a.message in d.texts && b.message in d.texts
    requires outboxes[k][a].MediaEntry? && outboxes[k][b].MediaEntry? && outboxes[k][a].key == outboxes[k][b].key
    ensures a == b && !IsText(d, a)
  {
    ReplaysKeepSlots(d, outboxes, stored, k, a);
    ReplaysKeepSlots(d, outboxes, stored, k, b);
    var key := outboxes[k][a].key;
    var f :| f in d.catalogue && KeyOf(f) == key && f.message == a.message;
    var g :| g in d.catalogue && KeyOf(g) == key && g.message == b.message;
  }

  predicate Carries(p: Payload, f: File) {
    p.MediaEntry? && f in p.files
  }

  /** Some file of the key is on disk. */
  predicate IsDue(d: Deletion, stored: set<nat>, key: Key) {
    FilesOf(Selected(d.catalogue, stored), key) != []
  }

  ghost predicate FirstDueAt(d: Deletion, stored: seq<set<nat>>, key: Key, j: nat) {
    && j < |stored| && IsDue(d, stored[j], key)
    && forall i :: 0 <= i < j ==> !IsDue(d, stored[i], key)
  }

  lemma {:induction false} FirstDue(d: Deletion, stored: seq<set<nat>>, key: Key, k: nat) returns (j: nat)
    requires k < |stored| && IsDue(d, stored[k], key)
    ensures j <= k && FirstDueAt(d, stored, key, j)
  {
    if i: nat :| i < k && IsDue(d, stored[i], key) {
      j := FirstDue(d, stored, key, i);
    } else {
      j := k;
    }
  }

  lemma {:induction false} NoEntryYet(
    d: Deletion, outboxes: seq<Entries>, stored: seq<set<nat>>, key: Key, k: nat, slot: Slot)
    requires AreReplays(d, outboxes, stored) && k < |outboxes| && slot in outboxes[k] && slot.message in d.texts
    requires forall i :: 0 <= i < k ==> !IsDue(d, stored[i], key)
    ensures outboxes[k][slot].MediaEntry? ==> outboxes[k][slot].key != key
  {
    if k > 0 {
      var before := k - 1;
      assert Processed(d, stored[before], outboxes[before], outboxes[before + 1]);
      if slot in outboxes[before] {
        NoEntryYet(d, outboxes, stored, key, before, slot);
      }
    }
  }

  lemma {:induction false} EntriesStay(
    d: Deletion, outboxes: seq<Entries>, stored: seq<set<nat>>, j: nat, k: nat, slot: Slot)
    requires AreReplays(d, outboxes, stored) && j <= k < |outboxes| && slot in outboxes[j]
    ensures slot in outboxes[k] && outboxes[k][slot] == outboxes[j][slot]
    decreases k
  {
    if j < k {
      EntriesStay(d, outboxes, stored, j, k - 1, slot);
      assert Processed(d, stored[k - 1], outboxes[k - 1], outboxes[k - 1 + 1]);
    }
  }

  /** The entry of a key is made by the first processing that finds a file of it. */
  lemma EntryIsMade(d: Deletion, outboxes: seq<Entries>, stored: seq<set<nat>>, key: Key, j: nat) returns (slot: Slot)
    requires AreReplays(d, outboxes, stored) && FirstDueAt(d, stored, key, j)
    ensures slot in outboxes[j + 1] && slot.message in d.texts
    ensures outboxes[j + 1][slot] == MediaEntry(key, FilesOf(Selected(d.catalogue, stored[j]), key))
  {
    assert Processed(d, stored[j], outboxes[j], outboxes[j + 1]);
    var f := FilesOf(Selected(d.catalogue, stored[j]), key)[0];
    assert f in FilesOf(Selected(d.catalogue, stored[j]), key);
    slot :| slot in outboxes[j + 1] && IsMediaSlot(d, KeyOf(f), slot);
    ReplaysKeepSlots(d, outboxes, stored, j + 1, slot);
    AnchorsTellKeysApart(d, key, outboxes[j + 1][slot].key, slot.message);
    if slot in outboxes[j] {
      NoEntryYet(d, outboxes, stored, key, j, slot);
      assert false;
    }
  }

  lemma EntryFiles(d: Deletion, stored: set<nat>, key: Key, f: File)
    requires Sorted(d.catalogue) && f in d.catalogue && KeyOf(f) == key
    ensures Sorted(FilesOf(Selected(d.catalogue, stored), key))
    ensures f in FilesOf(Selected(d.catalogue, stored), key) <==> f.id in stored
  {
    SelectedIsSorted(d.catalogue, stored);
    FilesOfIsSorted(Selected(d.catalogue, stored), key);
  }

  lemma OnlyItsEntryCarries(
    d: Deletion, outboxes: seq<Entries>, stored: seq<set<nat>>, k: nat, slot: Slot, other: Slot, f: File)
    requires AreReplays(d, outboxes, stored) && k < |outboxes| && slot in outboxes[k] && other in outboxes[k]
    requires slot.message in d.texts && outboxes[k][slot].MediaEntry? && outboxes[k][slot].key == KeyOf(f)
    requires other.message in d.texts && Carries(outboxes[k][other], f)
    ensures other == slot
  {
    ReplaysKeepSlots(d, outboxes, stored, k, other);
    ReplaysNeverDuplicate(d, outboxes, stored, k, other, slot);
  }

  /** Sent together: files of one album, or of one message outside any album. */
  predicate Together(f: File, g: File) {
    if f.group.Some? then g.group == f.group else g.group.None? && g.message == f.message
  }

  lemma TogetherIsOneKey(f: File, g: File)
    ensures Together(f, g) <==> KeyOf(f) == KeyOf(g)
  {
  }

  lemma EntryOfKey(d: Deletion, outboxes: seq<Entries>, stored: seq<set<nat>>, k: nat, key: Key)
    returns (slot: Slot, j: nat)
    requires AreReplays(d, outboxes, stored) && k < |stored| && IsDue(d, stored[k], key)
    ensures j <= k && FirstDueAt(d, stored, key, j) && slot in outboxes[k + 1] && slot.message in d.texts
    ensures outboxes[k + 1][slot] == MediaEntry(key, FilesOf(Selected(d.catalogue, stored[j]), key))
  {
    j := FirstDue(d, stored, key, k);
    slot := EntryIsMade(d, outboxes, stored, key, j);
    EntriesStay(d, outboxes, stored, j + 1, k + 1, slot);
  }

  lemma OnlyEntryOfKey(
    d: Deletion, outboxes: seq<Entries>, stored: seq<set<nat>>, k: nat, slot: Slot, f: File)
    requires AreReplays(d, outboxes, stored) && k < |outboxes| && slot in outboxes[k] && slot.message in d.texts
    requires outboxes[k][slot].MediaEntry? && outboxes[k][slot].key == KeyOf(f)
    ensures forall other :: other in outboxes[k] && other.message in d.texts && Carries(outboxes[k][other], f) ==>
      other == slot
  {
    forall other | other in outboxes[k] && other.message in d.texts && Carries(outboxes[k][other], f)
      ensures other == slot
    {
      OnlyItsEntryCarries(d, outboxes, stored, k, slot, other, f);
    }
  }

  /** After any processing that finds a file on disk, however many came before:
      its album or message has its entry, made by the first one that found any
      of its files, with all those then on disk in the order they were sent. So
      the file is in it exactly if it was on disk then, and it is in no other. */
  lemma EveryStoredFileTravelsOnce(d: Deletion, outboxes: seq<Entries>, stored: seq<set<nat>>, k: nat, f: File)
    returns (slot: Slot, j: nat)
    requires AreReplays(d, outboxes, stored) && k < |stored| && f in Selected(d.catalogue, stored[k])
    ensures j <= k && FirstDueAt(d, stored, KeyOf(f), j) && slot in outboxes[k + 1] && slot.message in d.texts
    ensures outboxes[k + 1][slot] == MediaEntry(KeyOf(f), FilesOf(Selected(d.catalogue, stored[j]), KeyOf(f)))
    ensures Sorted(outboxes[k + 1][slot].files)
    ensures f in outboxes[k + 1][slot].files <==> f.id in stored[j]
    ensures forall other ::
      other in outboxes[k + 1] && other.message in d.texts && Carries(outboxes[k + 1][other], f) ==> other == slot
  {
    assert f in FilesOf(Selected(d.catalogue, stored[k]), KeyOf(f));
    slot, j := EntryOfKey(d, outboxes, stored, k, KeyOf(f));
    EntryFiles(d, stored[j], KeyOf(f), f);
    OnlyEntryOfKey(d, outboxes, stored, k + 1, slot, f);
  }

  lemma NotDueHasNone(d: Deletion, stored: set<nat>, key: Key, g: File)
    requires !IsDue(d, stored, key) && g in d.catalogue && KeyOf(g) == key
    ensures g.id !in stored
  {
    assert g in FilesOf(Selected(d.catalogue, stored), key) <==> g.id in stored;
  }

  /** Where a file travels, and with which others. Its entry is the one right after
      the text chunks of the first message of its album, or of its own message;
      it holds exactly the files sent together with it that were on disk when it
      was made, by message and then by index. */
  lemma AFileTravelsWithItsAlbum(d: Deletion, outboxes: seq<Entries>, stored: seq<set<nat>>, k: nat, f: File)
    returns (slot: Slot, j: nat)
    requires AreReplays(d, outboxes, stored) && k < |stored| && f in d.catalogue && f.id in stored[k]
    ensures j <= k && slot in outboxes[k + 1] && outboxes[k + 1][slot].MediaEntry?
    ensures forall i, g :: 0 <= i < j && g in d.catalogue && Together(f, g) ==> g.id !in stored[i]
    ensures forall g :: g in outboxes[k + 1][slot].files <==> g in d.catalogue && Together(f, g) && g.id in stored[j]
    ensures var files := outboxes[k + 1][slot].files;
      forall a, b :: 0 <= a < b < |files| ==>
        files[a].message < files[b].message
        || (files[a].message == files[b].message && files[a].index < files[b].index)
    ensures slot.message in d.texts && slot.chunk == d.texts[slot.message]
    ensures exists g :: g in d.catalogue && Together(f, g) && g.message == slot.message
    ensures forall g :: g in d.catalogue && Together(f, g) ==> slot.message <= g.message
  {
    slot, j := EveryStoredFileTravelsOnce(d, outboxes, stored, k, f);
    var files := outboxes[k + 1][slot].files;
    forall g ensures Together(f, g) <==> KeyOf(f) == KeyOf(g) {
      TogetherIsOneKey(f, g);
    }
    forall i, g | 0 <= i < j && g in d.catalogue && Together(f, g) ensures g.id !in stored[i] {
      NotDueHasNone(d, stored[i], KeyOf(f), g);
    }
    assert forall a, b :: 0 <= a < b < |files| ==> Precedes(files[a], files[b]);
    ReplaysKeepSlots(d, outboxes, stored, k + 1, slot);
  }
}
