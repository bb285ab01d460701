/**
 * The frontend's spider types and `mergeSpiderData`
 * (frontend/src/interfaces/spider.ts).
 *
 * `mergeSpiderData` deep-copies a spider and upserts one data entry by name:
 * the entry at the LAST index with the same name is replaced, or the entry is
 * appended when no name matches. Dafny values are immutable, so the deep
 * copy is the value itself and the input can never change.
 */
module SpiderInterfaces {
  import opened Wrappers

  datatype SelectorStatus = Valid | Invalid

  /** `DataSelector`: the path, and the status the backend's validation gives it. */
  datatype DataSelector = DataSelector(path: Option<string>, status: Option<SelectorStatus>)

  datatype DataGroup = Price | Stock

  /** `Data`: one element to scrape; sweepers and the value type are not modelled. */
  datatype Data = Data(
    name: string,
    group: Option<DataGroup>,
    dataLabel: Option<string>,
    selector: Option<DataSelector>,
    isPopup: Option<bool>,
    popupSelector: Option<DataSelector>)

  /** `Spider`: the fields the modelled code reads. */
  datatype Spider = Spider(name: string, data: Option<seq<Data>>, sampleURLs: Option<seq<string>>)

  /** Index of the last entry named `name`, or -1: what the `forEach` leaves in `existingDataIndex`. */
  function LastIndexOfName(list: seq<Data>, name: string): (r: int)
    ensures -1 <= r < |list|
    ensures r == -1 <==> forall i :: 0 <= i < |list| ==> list[i].name != name
    ensures r >= 0 ==> list[r].name == name && forall i :: r < i < |list| ==> list[i].name != name
  {
    if list == [] then -1
    else if list[|list| - 1].name == name then |list| - 1
    else LastIndexOfName(list[..|list| - 1], name)
  }

  /** The data list `mergeSpiderData` builds from the old list. */
  function MergedData(list: seq<Data>, d: Data): seq<Data> {
    var i := LastIndexOfName(list, d.name);
    if i == -1 then list + [d] else list[i := d]
  }

  /** `mergeSpiderData`: the `forEach` scan, then `push` or an index assignment on the copy. */
  method MergeSpiderData(spider: Spider, d: Data) returns (r: Spider)
    ensures r == spider.(data := Some(MergedData(spider.data.GetOr([]), d)))
  {
    var existingDataIndex := -1;
    var localData := spider.data.GetOr([]);
    var i := 0;
    while i < |localData|
      invariant 0 <= i <= |localData|
      invariant existingDataIndex == LastIndexOfName(localData[..i], d.name)
    {
      assert localData[..i + 1][..i] == localData[..i];
      if localData[i].name == d.name {
        existingDataIndex := i;
      }
      i := i + 1;
    }
    assert localData[..i] == localData;
    if existingDataIndex == -1 {
      localData := localData + [d];
    } else {
      localData := localData[existingDataIndex := d];
    }
    r := spider.(data := Some(localData));
  }

  // ---------------------------------------------------------------------
  // Properties of the upsert
  // ---------------------------------------------------------------------

  /** Without an entry of the same name, the entry is appended after the old list. */
  lemma MergeAppendsNew(list: seq<Data>, d: Data)
    requires forall i :: 0 <= i < |list| ==> list[i].name != d.name
    ensures MergedData(list, d) == list + [d]
  {
  }

  /** With entries of the same name, the last one is replaced and the length is kept. */
  lemma MergeReplacesLast(list: seq<Data>, d: Data, k: int)
    requires 0 <= k < |list| && list[k].name == d.name
    requires forall i :: k < i < |list| ==> list[i].name != d.name
    ensures |MergedData(list, d)| == |list|
    ensures MergedData(list, d)[k] == d
    ensures forall i :: 0 <= i < |list| && i != k ==> MergedData(list, d)[i] == list[i]
  {
  }

  /** Afterwards `d` is in the list, as the last entry with its name. */
  lemma MergeContains(list: seq<Data>, d: Data)
    ensures d in MergedData(list, d)
    ensures LastIndexOfName(MergedData(list, d), d.name) >= 0
    ensures MergedData(list, d)[LastIndexOfName(MergedData(list, d), d.name)] == d
  {
    var i := LastIndexOfName(list, d.name);
    var m := MergedData(list, d);
    if i == -1 {
      assert m[|list|] == d;
    } else {
      assert m[i] == d;
      assert forall j :: i < j < |m| ==> m[j] == list[j];
    }
  }

  /** Merging the same entry twice gives what merging it once gives. */
  lemma MergeIdempotent(list: seq<Data>, d: Data)
    ensures MergedData(MergedData(list, d), d) == MergedData(list, d)
  {
    MergeContains(list, d);
  }

  /** An undefined data list becomes `[d]`; the other spider fields are kept. */
  lemma MergeIntoUndefined(spider: Spider, d: Data)
    requires spider.data.None?
    ensures var r := spider.(data := Some(MergedData(spider.data.GetOr([]), d)));
            r.data == Some([d]) && r.name == spider.name && r.sampleURLs == spider.sampleURLs
  {
    assert LastIndexOfName([], d.name) == -1;
    assert [] + [d] == [d];
  }
}
