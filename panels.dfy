// Model of PanelService: the panels a user sees (their own, then the team
// panels, without repeating an id), creating and deleting panels, and pinning
// and deleting panel items.  The two repositories are maps from id to entity,
// updated in place; ids the database would generate come from counters.

module Panels {
  import opened Common

  datatype PanelType = Personal | Team

  /** A panel row; its items are the item rows that reference it. */
  datatype Panel = Panel(id: int, name: string, userId: int, kind: PanelType)

  /** A pinned question on a panel. */
  datatype PinnedItem = PinnedItem(id: int, panelId: int, question: string, chartType: string, layoutConfig: string)

  datatype PanelError = PanelMissing   // "Panel not found"

  /** Some panel in `ps` has this id. */
  predicate HasId(ps: seq<Panel>, id: int) {
    exists k :: 0 <= k < |ps| && ps[k].id == id
  }

  /** The result of `getUserPanels`: team panels appended in turn unless their id is already present. */
  function Merged(personal: seq<Panel>, team: seq<Panel>): seq<Panel> {
    if team == [] then personal
    else
      var acc := Merged(personal, team[..|team| - 1]);
      var tp := team[|team| - 1];
      if HasId(acc, tp.id) then acc else acc + [tp]
  }

  /** The ids in `ps` are pairwise distinct. */
  predicate DistinctIds(ps: seq<Panel>) {
    forall i, j :: 0 <= i < j < |ps| ==> ps[i].id != ps[j].id
  }

  /** The personal panels come first, in order, and everything after them is a team panel. */
  lemma {:induction false} MergedKeepsPersonal(personal: seq<Panel>, team: seq<Panel>)
    ensures var m := Merged(personal, team);
      personal <= m && forall k :: |personal| <= k < |m| ==> m[k] in team
    decreases |team|
  {
    if team != [] {
      var init, tp := team[..|team| - 1], team[|team| - 1];
      MergedKeepsPersonal(personal, init);
      var acc, m := Merged(personal, init), Merged(personal, team);
      assert team == init + [tp];
      forall k | |personal| <= k < |m|
        ensures m[k] in team
      {
        if k < |acc| {
          assert m[k] == acc[k];
        } else {
          assert m[k] == tp;
        }
      }
    }
  }

  /** Every team panel's id is in the result. */
  lemma {:induction false} MergedCoversTeam(personal: seq<Panel>, team: seq<Panel>)
    ensures forall t :: t in team ==> HasId(Merged(personal, team), t.id)
    decreases |team|
  {
    if team != [] {
      var init, tp := team[..|team| - 1], team[|team| - 1];
      MergedCoversTeam(personal, init);
      var acc, m := Merged(personal, init), Merged(personal, team);
      assert team == init + [tp];
      forall t | t in team
        ensures HasId(m, t.id)
      {
        if t in init {
          var k :| 0 <= k < |acc| && acc[k].id == t.id;
          assert m[k] == acc[k];
        } else if !HasId(acc, tp.id) {
          assert m[|acc|] == tp;
        }
      }
    }
  }

  /** `p` is the row stored under its own id. */
  predicate Stored(panels: map<int, Panel>, p: Panel) {
    p.id in panels && panels[p.id] == p
  }

  /**
   * With `personal` the stored panels of the user and `team` the stored team
   * panels, in whatever order the repository returns them, the merged list
   * holds exactly the stored panels that the user owns or that are team panels.
   */
  lemma MergedOfStore(panels: map<int, Panel>, userId: int, personal: seq<Panel>, team: seq<Panel>)
    requires forall p :: p in personal <==> Stored(panels, p) && p.userId == userId
    requires forall p :: p in team <==> Stored(panels, p) && p.kind == Team
    ensures forall p :: p in Merged(personal, team) <==> Stored(panels, p) && (p.userId == userId || p.kind == Team)
  {
    var m := Merged(personal, team);
    MergedKeepsPersonal(personal, team);
    MergedCoversTeam(personal, team);
    forall p
      ensures p in m <==> Stored(panels, p) && (p.userId == userId || p.kind == Team)
    {
      if p in m {
        var k :| 0 <= k < |m| && m[k] == p;
        if k < |personal| {
          assert personal[k] == p;
        }
      }
      if Stored(panels, p) && p.userId == userId {
        assert p in personal;
      } else if Stored(panels, p) && p.kind == Team {
        assert p in team;
        var k :| 0 <= k < |m| && m[k].id == p.id;
        if k < |personal| {
          assert m[k] == personal[k];
        }
        assert Stored(panels, m[k]);
      }
    }
  }

  /** When the personal panels have distinct ids, so does the whole result. */
  lemma {:induction false} MergedDistinct(personal: seq<Panel>, team: seq<Panel>)
    requires DistinctIds(personal)
    ensures DistinctIds(Merged(personal, team))
    decreases |team|
  {
    if team != [] {
      MergedDistinct(personal, team[..|team| - 1]);
    }
  }

  /** The same merge, seen from a personal list with no panels: the team list without repeated ids. */
  lemma {:induction false} MergedOfNoPersonal(team: seq<Panel>)
    requires DistinctIds(team)
    ensures Merged([], team) == team
    decreases |team|
  {
    if team != [] {
      var init := team[..|team| - 1];
      MergedOfNoPersonal(init);
      var tp := team[|team| - 1];
      forall k | 0 <= k < |init|
        ensures init[k].id != tp.id
      {
        assert init[k] == team[k];
      }
      assert init + [tp] == team;
    }
  }

  /** The two repositories. */
  class PanelStore {
    var panels: map<int, Panel>
    var items: map<int, PinnedItem>
    var nextPanelId: int
    var nextItemId: int

    /** Rows carry their own ids, ids below the counters are taken, and every item's panel exists. */
    ghost predicate Valid()
      reads this
    {
      (forall id :: id in panels ==> panels[id].id == id && id < nextPanelId) &&
      (forall id :: id in items ==> items[id].id == id && id < nextItemId && items[id].panelId in panels)
    }

    constructor()
      ensures Valid() && panels == map[] && items == map[]
    {
      panels := map[];
      items := map[];
      nextPanelId := 1;
      nextItemId := 1;
    }

    /** The ids of the items of panel `panelId` (the `items` collection). */
    function ItemsOf(panelId: int): set<int>
      reads this
    {
      set id | id in items && items[id].panelId == panelId
    }

    /**
     * `getUserPanels`: `personal` and `team` are what `findByUserId` and
     * `findByType(TEAM)` return, in the repository's order; the nested loops
     * append each team panel whose id is not yet in the list, so the user sees
     * every panel of their own and every team panel, each once.
     */
    method GetUserPanels(userId: int, personal: seq<Panel>, team: seq<Panel>) returns (all: seq<Panel>)
      requires forall p :: p in personal <==> Stored(panels, p) && p.userId == userId
      requires forall p :: p in team <==> Stored(panels, p) && p.kind == Team
      ensures all == Merged(personal, team)
      ensures forall p :: p in all <==> p.id in panels && panels[p.id] == p && (p.userId == userId || p.kind == Team)
    {
      MergedOfStore(panels, userId, personal, team);
      all := personal;
      var i := 0;
      while i < |team|
        invariant 0 <= i <= |team|
        invariant all == Merged(personal, team[..i])
      {
        var tp := team[i];
        var exists_ := false;
        var j := 0;
        while j < |all|
          invariant 0 <= j <= |all|
          invariant exists_ <==> HasId(all[..j], tp.id)
        {
          if all[j].id == tp.id {
            exists_ := true;
            assert all[..j + 1][j] == all[j];
            break;
          }
          assert all[..j + 1] == all[..j] + [all[j]];
          j := j + 1;
        }
        if exists_ {
          var k :| 0 <= k < |all[..j + 1]| && all[..j + 1][k].id == tp.id;
          assert all[k].id == tp.id;
        } else {
          assert all[..j] == all;
        }
        assert team[..i + 1][..i] == team[..i];
        if !exists_ {
          all := all + [tp];
        }
        i := i + 1;
      }
      assert team[..i] == team;
    }

    /** `createPanel`: a new panel with the given name, owner and type and no items. */
    method CreatePanel(name: string, userId: int, kind: PanelType) returns (panel: Panel)
      requires Valid()
      modifies this
      ensures Valid()
      ensures panel == Panel(old(nextPanelId), name, userId, kind)
      ensures old(nextPanelId) !in old(panels) && panels == old(panels)[panel.id := panel]
      ensures items == old(items) && ItemsOf(panel.id) == {}
    {
      panel := Panel(nextPanelId, name, userId, kind);
      assert forall id :: id in items ==> items[id].panelId < nextPanelId;
      panels := panels[nextPanelId := panel];
      nextPanelId := nextPanelId + 1;
    }

    /** `pinItem`: a missing panel fails; otherwise a new item on that panel carries the three texts. */
    method PinItem(panelId: int, question: string, chartType: string, layoutConfig: string, userId: int)
      returns (r: Result<PinnedItem, PanelError>)
      requires Valid()
      modifies this
      ensures Valid() && panels == old(panels)
      ensures panelId !in panels ==> r == Failure(PanelMissing) && items == old(items)
      ensures panelId in panels ==>
        r == Success(PinnedItem(old(nextItemId), panelId, question, chartType, layoutConfig)) &&
        old(nextItemId) !in old(items) && items == old(items)[old(nextItemId) := r.value]
    {
      if panelId !in panels {
        return Failure(PanelMissing);
      }
      var item := PinnedItem(nextItemId, panelId, question, chartType, layoutConfig);
      items := items[nextItemId := item];
      nextItemId := nextItemId + 1;
      r := Success(item);
    }

    /**
     * `deletePanel`: a missing panel fails; the ownership branch is empty, so
     * any user deletes an existing panel, and the cascade removes its items.
     */
    method DeletePanel(panelId: int, userId: int) returns (r: Result<(), PanelError>)
      requires Valid()
      modifies this
      ensures Valid()
      ensures panelId !in old(panels) ==> r == Failure(PanelMissing) && panels == old(panels) && items == old(items)
      ensures panelId in old(panels) ==>
        r == Success(()) && panels == old(panels) - {panelId} &&
        items == map id | id in old(items) && old(items)[id].panelId != panelId :: old(items)[id]
    {
      if panelId !in panels {
        return Failure(PanelMissing);
      }
      items := map id | id in items && items[id].panelId != panelId :: items[id];
      panels := panels - {panelId};
      r := Success(());
    }

    /** `deleteItem`: removal by id with no permission check; an unknown id is ignored. */
    method DeleteItem(itemId: int, userId: int)
      requires Valid()
      modifies this
      ensures Valid() && panels == old(panels)
      ensures items == old(items) - {itemId}
    {
      items := items - {itemId};
    }
  }
}
