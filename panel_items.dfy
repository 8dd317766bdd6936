// Model of the earlier PanelService: a user's pinned items kept in a
// repository updated in place (modelled as a map from item id to item),
// with defaults on add, ownership-checked partial update and delete, and the
// batch layout update, which runs in one transaction.

module PanelItems {
  import opened Common

  /** A pinned item; every field of the request may be null. */
  datatype PanelItem = PanelItem(
    itemId: Option<int>,
    userId: Option<int>,
    title: Option<string>,
    content: Option<string>,
    positionX: Option<int>,
    positionY: Option<int>,
    width: Option<int>,
    height: Option<int>)

  datatype PanelError =
    | ItemMissing   // "Pin项目不存在"
    | NotOwner      // "无权限修改此Pin项目" / "无权限删除此Pin项目"
    | NullId        // `findById(null)` throws; the transaction rolls back

  /**
   * `addPanelItem`'s defaults: the owner is set; a missing row becomes the
   * owner's current item count, a missing column 0, width 2 and height 1.
   */
  function WithDefaults(item: PanelItem, userId: int, count: nat): PanelItem {
    item.(
      userId := Some(userId),
      positionY := if item.positionY.None? then Some(count) else item.positionY,
      positionX := if item.positionX.None? then Some(0) else item.positionX,
      width := if item.width.None? then Some(2) else item.width,
      height := if item.height.None? then Some(1) else item.height)
  }

  /** The layout fields of an item are all present. */
  predicate Placed(item: PanelItem) {
    item.positionX.Some? && item.positionY.Some? && item.width.Some? && item.height.Some?
  }

  /**
   * After the defaults every layout field is present, given values are
   * kept, the text is untouched, and applying the defaults again (with any
   * count) changes nothing.
   */
  lemma DefaultsComplete(item: PanelItem, userId: int, count: nat, count': nat)
    ensures var r := WithDefaults(item, userId, count);
      Placed(r) && r.userId == Some(userId) &&
      (item.positionX.Some? ==> r.positionX == item.positionX) &&
      (item.positionY.Some? ==> r.positionY == item.positionY) &&
      (item.width.Some? ==> r.width == item.width) &&
      (item.height.Some? ==> r.height == item.height) &&
      r.title == item.title && r.content == item.content &&
      WithDefaults(r, userId, count') == r
  {
  }

  /** `updatePanelItem`'s copy: each non-null field of the update overwrites; nothing else changes. */
  function Overlay(item: PanelItem, updates: PanelItem): (r: PanelItem)
    ensures r.itemId == item.itemId && r.userId == item.userId
  {
    item.(
      title := if updates.title.Some? then updates.title else item.title,
      content := if updates.content.Some? then updates.content else item.content,
      positionX := if updates.positionX.Some? then updates.positionX else item.positionX,
      positionY := if updates.positionY.Some? then updates.positionY else item.positionY,
      width := if updates.width.Some? then updates.width else item.width,
      height := if updates.height.Some? then updates.height else item.height)
  }

  /** An update with no fields.  */
  const NoUpdates: PanelItem := PanelItem(None, None, None, None, None, None, None, None)

  /**
   * A partial update: an empty update changes nothing, repeating an update
   * changes nothing more, and a field the update leaves null keeps its value.
   */
  lemma OverlayLaws(item: PanelItem, updates: PanelItem)
    ensures Overlay(item, NoUpdates) == item
    ensures Overlay(Overlay(item, updates), updates) == Overlay(item, updates)
    ensures updates.title.None? ==> Overlay(item, updates).title == item.title
    ensures updates.title.Some? ==> Overlay(item, updates).title == updates.title
    ensures updates.width.None? ==> Overlay(item, updates).width == item.width
  {
  }

  /** `updateLayout`'s copy: all four layout fields are overwritten, nulls included. */
  function Relaid(existing: PanelItem, layout: PanelItem): (r: PanelItem)
    ensures r.itemId == existing.itemId && r.userId == existing.userId
    ensures r.title == existing.title && r.content == existing.content
  {
    existing.(positionX := layout.positionX, positionY := layout.positionY, width := layout.width, height := layout.height)
  }

  /** One entry of the layout list: an unknown or foreign item is skipped. */
  function LayoutStep(items: map<int, PanelItem>, userId: int, layout: PanelItem): map<int, PanelItem>
    requires layout.itemId.Some?
  {
    var id := layout.itemId.value;
    if id in items && items[id].userId == Some(userId) then items[id := Relaid(items[id], layout)] else items
  }

  /** The layout list applied in order, every id present. */
  function ApplyLayout(items: map<int, PanelItem>, userId: int, layout: seq<PanelItem>): map<int, PanelItem>
    requires forall k :: 0 <= k < |layout| ==> layout[k].itemId.Some?
  {
    if layout == [] then items
    else LayoutStep(ApplyLayout(items, userId, layout[..|layout| - 1]), userId, layout[|layout| - 1])
  }

  /** `updateLayout`: a null id anywhere aborts the transaction and nothing changes. */
  function UpdateLayoutSpec(items: map<int, PanelItem>, userId: int, layout: seq<PanelItem>): Result<map<int, PanelItem>, PanelError> {
    if exists k :: 0 <= k < |layout| && layout[k].itemId.None? then Failure(NullId)
    else Success(ApplyLayout(items, userId, layout))
  }

  /** The layout update keeps the ids and the owners, and leaves other users' items and all texts alone. */
  lemma {:induction false} LayoutKeepsOwnership(items: map<int, PanelItem>, userId: int, layout: seq<PanelItem>)
    requires forall k :: 0 <= k < |layout| ==> layout[k].itemId.Some?
    ensures var r := ApplyLayout(items, userId, layout);
      r.Keys == items.Keys &&
      (forall id :: id in items ==> r[id].userId == items[id].userId && r[id].itemId == items[id].itemId &&
                                    r[id].title == items[id].title && r[id].content == items[id].content) &&
      (forall id :: id in items && items[id].userId != Some(userId) ==> r[id] == items[id])
  {
    if layout != [] {
      LayoutKeepsOwnership(items, userId, layout[..|layout| - 1]);
    }
  }

  /** The last entry for an owned item decides its layout, nulls included. */
  lemma LayoutLastWins(items: map<int, PanelItem>, userId: int, layout: seq<PanelItem>)
    requires forall k :: 0 <= k < |layout| ==> layout[k].itemId.Some?
    requires layout != []
    requires var id := layout[|layout| - 1].itemId.value; id in items && items[id].userId == Some(userId)
    ensures layout[|layout| - 1].itemId.value in ApplyLayout(items, userId, layout)
    ensures var last := layout[|layout| - 1];
      var r := ApplyLayout(items, userId, layout)[last.itemId.value];
      r.positionX == last.positionX && r.positionY == last.positionY && r.width == last.width && r.height == last.height
  {
    LayoutKeepsOwnership(items, userId, layout[..|layout| - 1]);
  }

  /** The repository of pinned items. */
  class PanelItemStore {
    var items: map<int, PanelItem>
    var nextId: int

    /** Every stored item carries its own id and an owner; ids below `nextId` are taken. */
    ghost predicate Valid()
      reads this
    {
      forall id :: id in items ==> items[id].itemId == Some(id) && items[id].userId.Some? && id < nextId
    }

    constructor()
      ensures Valid() && items == map[] && nextId == 1
    {
      items := map[];
      nextId := 1;
    }

    /** `countByUserId`. */
    function CountOf(userId: int): nat
      reads this
    {
      |set id | id in items && items[id].userId == Some(userId)|
    }

    /** `addPanelItem`: defaults, then a save under a fresh id. */
    method AddPanelItem(userId: int, item: PanelItem) returns (saved: PanelItem)
      requires Valid()
      modifies this
      ensures Valid()
      ensures saved == WithDefaults(item, userId, old(CountOf(userId))).(itemId := Some(old(nextId)))
      ensures old(nextId) !in old(items) && items == old(items)[old(nextId) := saved]
    {
      var count := CountOf(userId);
      var placed := WithDefaults(item, userId, count);
      saved := placed.(itemId := Some(nextId));
      items := items[nextId := saved];
      nextId := nextId + 1;
    }

    /** `updatePanelItem`: a missing item or another user's item fails and changes nothing. */
    method UpdatePanelItem(userId: int, itemId: int, updates: PanelItem) returns (r: Result<PanelItem, PanelError>)
      requires Valid()
      modifies this
      ensures Valid() && nextId == old(nextId)
      ensures itemId !in old(items) ==> r == Failure(ItemMissing) && items == old(items)
      ensures itemId in old(items) && old(items)[itemId].userId != Some(userId) ==> r == Failure(NotOwner) && items == old(items)
      ensures itemId in old(items) && old(items)[itemId].userId == Some(userId) ==>
        r == Success(Overlay(old(items)[itemId], updates)) && items == old(items)[itemId := r.value]
    {
      if itemId !in items {
        return Failure(ItemMissing);
      }
      var item := items[itemId];
      if item.userId != Some(userId) {
        return Failure(NotOwner);
      }
      var saved := Overlay(item, updates);
      items := items[itemId := saved];
      r := Success(saved);
    }

    /** `deletePanelItem`: only the owner removes an existing item, and only that one. */
    method DeletePanelItem(userId: int, itemId: int) returns (r: Result<(), PanelError>)
      requires Valid()
      modifies this
      ensures Valid() && nextId == old(nextId)
      ensures itemId !in old(items) ==> r == Failure(ItemMissing) && items == old(items)
      ensures itemId in old(items) && old(items)[itemId].userId != Some(userId) ==> r == Failure(NotOwner) && items == old(items)
      ensures itemId in old(items) && old(items)[itemId].userId == Some(userId) ==>
        r == Success(()) && items == old(items) - {itemId}
    {
      if itemId !in items {
        return Failure(ItemMissing);
      }
      if items[itemId].userId != Some(userId) {
        return Failure(NotOwner);
      }
      items := items - {itemId};
      r := Success(());
    }

    /** `updateLayout`: each entry in turn; a null id throws and the transaction restores the items. */
    method UpdateLayout(userId: int, layout: seq<PanelItem>) returns (r: Result<(), PanelError>)
      requires Valid()
      modifies this
      ensures Valid() && nextId == old(nextId)
      ensures match UpdateLayoutSpec(old(items), userId, layout)
        case Failure(e) => r == Failure(e) && items == old(items)
        case Success(m) => r == Success(()) && items == m
    {
      var before := items;
      var i := 0;
      while i < |layout|
        invariant 0 <= i <= |layout|
        invariant forall k :: 0 <= k < i ==> layout[k].itemId.Some?
        invariant items == ApplyLayout(before, userId, layout[..i])
        invariant nextId == old(nextId) && before == old(items)
        invariant Valid()
      {
        var entry := layout[i];
        if entry.itemId.None? {
          items := before;
          return Failure(NullId);
        }
        assert layout[..i + 1][..i] == layout[..i];
        var id := entry.itemId.value;
        if id in items && items[id].userId == Some(userId) {
          items := items[id := Relaid(items[id], entry)];
        }
        i := i + 1;
      }
      assert layout[..i] == layout;
      r := Success(());
    }
  }
}
