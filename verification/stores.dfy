/** The static table of File Search stores and the selection of store ids
    for a list of selected keys (app/main.py, `STORES` and line 116). */
module Stores {

  /** One entry of the store table. */
  datatype Store = Store(
    name: string,
    storeId: string,
    displayName: string,
    icon: string,
    description: string,
    count: nat)

  const PenaltiesKey: string := "penalties"
  const LawInterpretationsKey: string := "law_interpretations"
  const AnnouncementsKey: string := "announcements"

  /** The store table, keyed by the selection key. */
  const StoreTable: map<string, Store> := map[
    PenaltiesKey := Store(
      "fsc-penalties-plaintext",
      "fileSearchStores/fscpenaltiesplaintext-4f87t5uexgui",
      "裁罰案件", "⚖️", "490 筆金融機構裁罰案件 (2012-2025)", 490),
    LawInterpretationsKey := Store(
      "fsc-law-interpretations",
      "fileSearchStores/fsclawinterpretations-zz5pwrly06hz",
      "法令函釋", "📜", "法規解釋、修正說明、條文對照", 2872),
    AnnouncementsKey := Store(
      "fsc-announcements",
      "fileSearchStores/fscannouncements-o94q0kmo2zxb",
      "重要公告", "📢", "政策公告、法規修正公告", 1642)
  ]

  /** The store id that `key` selects, if `key` is in the table. */
  function StoreIdOf(key: string): (r: seq<string>)
    ensures key in StoreTable ==> r == [StoreTable[key].storeId]
    ensures key !in StoreTable ==> r == []
  {
    if key in StoreTable then [StoreTable[key].storeId] else []
  }

  /** The store ids of the selected keys that exist in the table, in the
      caller's order; keys not in the table are dropped. */
  function StoreIds(selected: seq<string>): (ids: seq<string>)
    ensures |ids| <= |selected|
    ensures ids == [] <==> (forall i :: 0 <= i < |selected| ==> selected[i] !in StoreTable)
  {
    if selected == [] then []
    else StoreIdOf(selected[0]) + StoreIds(selected[1..])
  }

  /** Selecting from a concatenation selects from each part, in order. */
  lemma {:induction false} StoreIdsAppend(a: seq<string>, b: seq<string>)
    ensures StoreIds(a + b) == StoreIds(a) + StoreIds(b)
  {
    if a == [] {
      assert a + b == b;
    } else {
      assert (a + b)[0] == a[0];
      assert (a + b)[1..] == a[1..] + b;
      StoreIdsAppend(a[1..], b);
    }
  }

  /** An id is selected exactly when some selected key in the table has it. */
  lemma {:induction false} StoreIdsMembership(selected: seq<string>, id: string)
    ensures id in StoreIds(selected) <==>
      exists i :: 0 <= i < |selected| && selected[i] in StoreTable && StoreTable[selected[i]].storeId == id
  {
    if selected != [] {
      StoreIdsMembership(selected[1..], id);
      if id in StoreIds(selected[1..]) {
        var i :| 0 <= i < |selected[1..]| && selected[1..][i] in StoreTable && StoreTable[selected[1..][i]].storeId == id;
        assert selected[i + 1] == selected[1..][i];
      }
      forall i | 0 < i < |selected| && selected[i] in StoreTable && StoreTable[selected[i]].storeId == id
        ensures id in StoreIds(selected[1..])
      {
        assert selected[1..][i - 1] == selected[i];
      }
    }
  }

  /** Different keys of the table name different stores, so no selected store
      is confused with another. */
  lemma StoreIdsDistinct(k1: string, k2: string)
    requires k1 in StoreTable && k2 in StoreTable && k1 != k2
    ensures StoreTable[k1].storeId != StoreTable[k2].storeId
  {
  }

  /** A selection without repeated keys, such as the sidebar builds by going
      through the table once, yields store ids without repeats. */
  lemma {:induction false} StoreIdsNoDuplicates(selected: seq<string>)
    requires forall i, j :: 0 <= i < j < |selected| ==> selected[i] != selected[j]
    ensures var ids := StoreIds(selected);
      forall i, j :: 0 <= i < j < |ids| ==> ids[i] != ids[j]
  {
    if selected != [] {
      var rest := selected[1..];
      StoreIdsNoDuplicates(rest);
      var key := selected[0];
      if key in StoreTable {
        var id := StoreTable[key].storeId;
        StoreIdsMembership(rest, id);
        if id in StoreIds(rest) {
          var k :| 0 <= k < |rest| && rest[k] in StoreTable && StoreTable[rest[k]].storeId == id;
          assert rest[k] == selected[k + 1];
          StoreIdsDistinct(key, rest[k]);
        }
        var ids := StoreIds(selected);
        assert ids == [id] + StoreIds(rest);
        forall i, j | 0 <= i < j < |ids| ensures ids[i] != ids[j] {
          assert ids[j] == StoreIds(rest)[j - 1];
          if i > 0 {
            assert ids[i] == StoreIds(rest)[i - 1];
          }
        }
      } else {
        assert StoreIds(selected) == StoreIds(rest);
      }
    }
  }
}
