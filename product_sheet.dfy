/**
 * The readiness queries and the side-bar lookup of the product-sheet view
 * (frontend/src/views/ProductSheet/ProductSheet.tsx).
 *
 * `isSelectorValid(name)` scans every data entry of the current spider for
 * one with that name and a VALID selector; `validDataCount(group)` counts the
 * entries of a group whose name passes that test; `showSideBar(element)`
 * opens the configuration side bar on a copy of the last entry named like
 * the element, or on the element itself.
 */
module ProductSheet {
  import opened Wrappers
  import opened SpiderInterfaces

  /** `IDataConfig`: a page element the user can click to configure. */
  datatype DataConfig = DataConfig(name: string, dataLabel: string, group: DataGroup)

  /** `d.selector && d.selector.status == SelectorStatus.VALID` */
  predicate HasValidSelector(d: Data) {
    d.selector.Some? && d.selector.value.status == Some(Valid)
  }

  /** The entries `spider?.data?.forEach` visits: none without a spider or a data list. */
  function Entries(spider: Option<Spider>): seq<Data> {
    match spider
    case None => []
    case Some(s) => s.data.GetOr([])
  }

  /** Some entry of `all` has this name and a valid selector. */
  predicate SelectorValidIn(all: seq<Data>, name: string) {
    exists i :: 0 <= i < |all| && all[i].name == name && HasValidSelector(all[i])
  }

  /**
   * `isSelectorValid`: the `return` inside the `forEach` callback ends only
   * that callback, so the scan always visits every entry.
   */
  method IsSelectorValid(spider: Option<Spider>, dataName: string) returns (isConfigured: bool)
    ensures isConfigured <==> SelectorValidIn(Entries(spider), dataName)
  {
    isConfigured := false;
    var list := Entries(spider);
    var i := 0;
    while i < |list|
      invariant 0 <= i <= |list|
      invariant isConfigured <==> exists j :: 0 <= j < i && list[j].name == dataName && HasValidSelector(list[j])
    {
      if list[i].name == dataName {
        if list[i].selector.Some? && list[i].selector.value.status == Some(Valid) {
          isConfigured := true;
        }
      }
      i := i + 1;
    }
  }

  /** The number of entries of `list` in group `g` whose name is valid in `all`. */
  function ValidCount(list: seq<Data>, all: seq<Data>, g: DataGroup): nat {
    if list == [] then 0
    else
      var last := list[|list| - 1];
      ValidCount(list[..|list| - 1], all, g)
      + if last.group == Some(g) && SelectorValidIn(all, last.name) then 1 else 0
  }

  /** The number of entries of `list` in group `g`. */
  function GroupSize(list: seq<Data>, g: DataGroup): nat {
    if list == [] then 0
    else GroupSize(list[..|list| - 1], g) + if list[|list| - 1].group == Some(g) then 1 else 0
  }

  /** `validDataCount`: one `isSelectorValid` test per entry of the group. */
  method ValidDataCount(spider: Option<Spider>, dataGroup: DataGroup) returns (count: nat)
    ensures count == ValidCount(Entries(spider), Entries(spider), dataGroup)
    ensures count <= GroupSize(Entries(spider), dataGroup)
  {
    count := 0;
    var list := Entries(spider);
    var i := 0;
    while i < |list|
      invariant 0 <= i <= |list|
      invariant count == ValidCount(list[..i], list, dataGroup)
    {
      assert list[..i + 1][..i] == list[..i];
      if list[i].group.Some? && list[i].group.value == dataGroup {
        var valid := IsSelectorValid(spider, list[i].name);
        if valid {
          count := count + 1;
        }
      }
      i := i + 1;
    }
    assert list[..i] == list;
    ValidCountBounded(list, list, dataGroup);
  }

  /** The entry `showSideBar` opens: the element as new data, or the last match with the element's group. */
  function SideBarData(list: seq<Data>, element: DataConfig): Data {
    var i := LastIndexOfName(list, element.name);
    if i == -1 then Data(element.name, Some(element.group), Some(element.dataLabel), None, None, None)
    else list[i].(group := Some(element.group))
  }

  /** The React state of the view that `showSideBar` sets. */
  class SheetState {
    var data: Option<Data>
    var isSideBarOpen: bool

    constructor ()
      ensures data.None? && !isSideBarOpen
    {
      data := None;
      isSideBarOpen := false;
    }

    /**
     * `showSideBar`: `setData` runs once per matching entry, so the last
     * match wins; the spider's own entries are never changed.
     */
    method ShowSideBar(spider: Option<Spider>, element: DataConfig)
      modifies this
      ensures spider.None? ==> data == old(data) && isSideBarOpen == old(isSideBarOpen)
      ensures spider.Some? ==> isSideBarOpen && data == Some(SideBarData(Entries(spider), element))
    {
      if spider.Some? {
        var list := Entries(spider);
        var dataIndex := -1;
        var i := 0;
        while i < |list|
          invariant 0 <= i <= |list|
          invariant dataIndex == LastIndexOfName(list[..i], element.name)
          invariant dataIndex >= 0 ==> data == Some(list[dataIndex].(group := Some(element.group)))
        {
          assert list[..i + 1][..i] == list[..i];
          if list[i].name == element.name {
            var localData := list[i];
            localData := localData.(group := Some(element.group));
            dataIndex := i;
            data := Some(localData);
          }
          i := i + 1;
        }
        assert list[..i] == list;
        if dataIndex == -1 {
          data := Some(Data(element.name, Some(element.group), Some(element.dataLabel), None, None, None));
        }
        isSideBarOpen := true;
      }
    }
  }

  // ---------------------------------------------------------------------
  // Properties of the queries
  // ---------------------------------------------------------------------

  /** At most the entries of the group are counted. */
  lemma {:induction false} ValidCountBounded(list: seq<Data>, all: seq<Data>, g: DataGroup)
    ensures ValidCount(list, all, g) <= GroupSize(list, g)
  {
    if list != [] {
      ValidCountBounded(list[..|list| - 1], all, g);
    }
  }

  /** When every entry of the group is valid, all of them are counted. */
  lemma {:induction false} ValidCountAllValid(list: seq<Data>, all: seq<Data>, g: DataGroup)
    requires forall i :: 0 <= i < |list| && list[i].group == Some(g) ==> SelectorValidIn(all, list[i].name)
    ensures ValidCount(list, all, g) == GroupSize(list, g)
  {
    if list != [] {
      ValidCountAllValid(list[..|list| - 1], all, g);
    }
  }

  /** Entries without a group, or of another group, never add to the count. */
  lemma ValidCountIgnoresOtherGroups(list: seq<Data>, all: seq<Data>, g: DataGroup, e: Data)
    requires e.group != Some(g)
    ensures ValidCount(list + [e], all, g) == ValidCount(list, all, g)
  {
    assert (list + [e])[..|list|] == list;
  }

  /** Without a spider or a data list, no name is valid and nothing is counted. */
  lemma NothingWithoutData(spider: Option<Spider>, name: string, g: DataGroup)
    requires spider.None? || spider.value.data.None?
    ensures !SelectorValidIn(Entries(spider), name)
    ensures ValidCount(Entries(spider), Entries(spider), g) == 0
  {
  }

  /**
   * An earlier entry with an invalid selector does not hide a later valid one
   * of the same name: the scan is not stopped by the `return`.
   */
  lemma LaterValidEntryFound(bad: Data, good: Data)
    requires bad.name == good.name && !HasValidSelector(bad) && HasValidSelector(good)
    ensures SelectorValidIn([bad, good], good.name)
  {
    assert [bad, good][1] == good;
  }

  /** The side bar always opens on an entry with the element's name and group. */
  lemma SideBarDataMatchesElement(list: seq<Data>, element: DataConfig)
    ensures SideBarData(list, element).name == element.name
    ensures SideBarData(list, element).group == Some(element.group)
    ensures LastIndexOfName(list, element.name) >= 0 ==>
      SideBarData(list, element).selector == list[LastIndexOfName(list, element.name)].selector
  {
  }
}
