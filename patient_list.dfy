/** The by-id list updates both screens write back into component state:
    `filter(p => p.id !== id)` to delete and `map(p => p.id === id ? q : p)`
    to replace. */
module PatientList {
  import opened Records
  import opened Seqs

  /** `list.filter(p => p.id !== id)`. */
  function RemoveById(list: seq<Patient>, id: string): (r: seq<Patient>)
    ensures |r| <= |list|
    ensures forall p :: p in r <==> p in list && p.id != id
  {
    Filter(list, (p: Patient) => p.id != id)
  }

  /** After the delete no entry carries the id; the other entries keep their
      order; and an id that was absent leaves the list as it was. */
  lemma RemoveByIdSpec(list: seq<Patient>, id: string)
    ensures id !in Ids(RemoveById(list, id))
    ensures IsSubsequence(RemoveById(list, id), list)
    ensures id !in Ids(list) ==> RemoveById(list, id) == list
  {
    FilterIsSubsequence(list, (p: Patient) => p.id != id);
    if id !in Ids(list) {
      FilterKeepsAll(list, (p: Patient) => p.id != id);
    }
  }

  /** Filtering a list keeps the ids of the remaining entries distinct. */
  lemma {:induction false} FilterKeepsUniqueIds(list: seq<Patient>, keep: Patient -> bool)
    requires UniqueIds(list)
    ensures UniqueIds(Filter(list, keep))
  {
    if list != [] {
      var rest := list[1..];
      assert UniqueIds(rest) by {
        forall i, j | 0 <= i < j < |rest| ensures rest[i].id != rest[j].id {
          assert rest[i] == list[i + 1] && rest[j] == list[j + 1];
        }
      }
      FilterKeepsUniqueIds(rest, keep);
      var tail := Filter(rest, keep);
      forall q | q in tail ensures q.id != list[0].id {
        var k :| 0 <= k < |rest| && rest[k] == q;
        assert list[k + 1] == q;
      }
    }
  }

  /** Deleting by id keeps the ids of the remaining entries distinct. */
  lemma RemoveByIdKeepsUniqueIds(list: seq<Patient>, id: string)
    requires UniqueIds(list)
    ensures UniqueIds(RemoveById(list, id))
  {
    FilterKeepsUniqueIds(list, (p: Patient) => p.id != id);
  }

  /** `list.map(p => p.id === id ? q : p)`. */
  function ReplaceById(list: seq<Patient>, id: string, q: Patient): (r: seq<Patient>)
    ensures |r| == |list|
    ensures forall i :: 0 <= i < |list| && list[i].id == id ==> r[i] == q
    ensures forall i :: 0 <= i < |list| && list[i].id != id ==> r[i] == list[i]
  {
    if list == [] then []
    else [if list[0].id == id then q else list[0]] + ReplaceById(list[1..], id, q)
  }

  /** A replacement that keeps the id keeps every entry's id where it was. */
  lemma ReplaceByIdKeepsIds(list: seq<Patient>, id: string, q: Patient)
    requires q.id == id
    ensures forall i :: 0 <= i < |list| ==> ReplaceById(list, id, q)[i].id == list[i].id
    ensures UniqueIds(list) ==> UniqueIds(ReplaceById(list, id, q))
  {
  }

  /** Replacing every entry with the id by the value those entries already
      have changes nothing. */
  lemma ReplaceByIdSameValue(list: seq<Patient>, id: string, q: Patient)
    requires forall i :: 0 <= i < |list| && list[i].id == id ==> list[i] == q
    ensures ReplaceById(list, id, q) == list
  {
  }

  /** Appending a record whose id is new keeps the ids distinct. */
  lemma AppendFreshKeepsUniqueIds(list: seq<Patient>, q: Patient)
    requires UniqueIds(list) && q.id !in Ids(list)
    ensures UniqueIds(list + [q])
  {
    var r := list + [q];
    forall i, j | 0 <= i < j < |r| ensures r[i].id != r[j].id {
      if j == |list| {
        assert r[i] == list[i];
      } else {
        assert r[i] == list[i] && r[j] == list[j];
      }
    }
  }

  /** Prepending a record whose id is new keeps the ids distinct. */
  lemma PrependFreshKeepsUniqueIds(list: seq<Patient>, q: Patient)
    requires UniqueIds(list) && q.id !in Ids(list)
    ensures UniqueIds([q] + list)
  {
    var r := [q] + list;
    forall i, j | 0 <= i < j < |r| ensures r[i].id != r[j].id {
      if i == 0 {
        assert r[j] == list[j - 1];
      } else {
        assert r[i] == list[i - 1] && r[j] == list[j - 1];
      }
    }
  }
}
