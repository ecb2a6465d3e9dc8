/**
 * The two entities of the client: `RecordDetail` (a count and a description)
 * and `ServerRecord` (a name and an ordered list of details). Both are
 * identified by a `Uuid`; the program's `==` and `hash` look at that id only.
 */
module Entities {
  import opened Ids

  /** What a detail shows apart from its identity. */
  datatype DetailContent = DetailContent(count: int, description: string)

  /** What a record shows apart from its identity and the details' identities. */
  datatype RecordContent = RecordContent(name: string, details: seq<DetailContent>)

  /** The description `addDetail()` gives to the detail it appends. */
  const DefaultDescription := "Default description"

  /**
   * A detail. The program never changes a detail's count or description
   * after creation, so a detail is a value here; `Equals` is the program's
   * `==`, which compares identifiers only (Dafny's own `==` on this type
   * would compare every field).
   */
  datatype RecordDetail = RecordDetail(id: Uuid, count: int, description: string) {

    predicate Equals(other: RecordDetail) {
      id == other.id
    }

    /** The value `hash(into:)` feeds to the hasher: the identifier alone. */
    function Hash(): nat {
      id.token
    }

    function Content(): DetailContent {
      DetailContent(count, description)
    }
  }

  /** `RecordDetail(count:description:)`: the given fields and a fresh id. */
  method NewRecordDetail(count: int, description: string, ids: IdSource) returns (d: RecordDetail)
    modifies ids
    ensures d.count == count && d.description == description
    ensures !old(ids.Issued(d.id)) && ids.Issued(d.id)
    ensures d.id.token == old(ids.next) && ids.next == old(ids.next) + 1
  {
    var u := ids.Fresh();
    d := RecordDetail(u, count, description);
  }

  /** `==` on details is an equivalence relation. */
  lemma DetailEqualsIsEquivalence(a: RecordDetail, b: RecordDetail, c: RecordDetail)
    ensures a.Equals(a)
    ensures a.Equals(b) ==> b.Equals(a)
    ensures a.Equals(b) && b.Equals(c) ==> a.Equals(c)
  {
  }

  /**
   * Two details are equal exactly when their ids match, whatever their
   * counts and descriptions, and equal details hash alike.
   */
  lemma DetailEqualsIsIdentity(a: RecordDetail, b: RecordDetail)
    ensures a.Equals(b) <==> a.id == b.id
    ensures a.Equals(b) ==> a.Hash() == b.Hash()
    ensures a.Equals(b) <==> a.(count := b.count, description := b.description) == b
  {
  }

  /** A record: its name and list of details change in place, its id never. */
  class ServerRecord {
    const id: Uuid
    var name: string
    var details: seq<RecordDetail>

    /** `init(named:)`: the given name, no details and a fresh id. */
    constructor (named: string, ids: IdSource)
      modifies ids
      ensures name == named && details == []
      ensures ids.Issued(id) && forall u: Uuid :: old(ids.Issued(u)) ==> u != id
      ensures id.token == old(ids.next) && ids.next == old(ids.next) + 1
    {
      var u := ids.Fresh();
      id := u;
      name := named;
      details := [];
    }

    /** `addDetail()`: appends a new detail with count 0 and the default description. */
    method AddDetail(ids: IdSource)
      modifies this, ids
      ensures name == old(name)
      ensures |details| == |old(details)| + 1 && details[..|old(details)|] == old(details)
      ensures details[|old(details)|].Content() == DetailContent(0, DefaultDescription)
      ensures Last(details).id.token == old(ids.next) && ids.next == old(ids.next) + 1
      ensures forall u: Uuid :: old(ids.Issued(u)) ==> u != Last(details).id
    {
      var d := NewRecordDetail(0, DefaultDescription, ids);
      details := details + [d];
    }

    /** `insert(detail:)`: appends exactly `detail`, nothing else changes. */
    method Insert(detail: RecordDetail)
      modifies this
      ensures name == old(name)
      ensures details == old(details) + [detail]
    {
      details := details + [detail];
    }

    /** The program's `==`: identifiers only. */
    predicate Equals(other: ServerRecord) {
      id == other.id
    }

    /** The value `hash(into:)` feeds to the hasher. */
    function Hash(): nat {
      id.token
    }

    function Content(): RecordContent
      reads this
    {
      RecordContent(name, DetailContents(details))
    }
  }

  function Last<T>(s: seq<T>): T
    requires s != []
  {
    s[|s| - 1]
  }

  /** `==` on records is an equivalence relation, and equal records hash alike. */
  lemma RecordEqualsIsIdentity(a: ServerRecord, b: ServerRecord, c: ServerRecord)
    ensures a.Equals(b) <==> a.id == b.id
    ensures a.Equals(a)
    ensures a.Equals(b) ==> b.Equals(a)
    ensures a.Equals(b) && b.Equals(c) ==> a.Equals(c)
    ensures a.Equals(b) ==> a.Hash() == b.Hash()
  {
  }

  /** The contents of a list of details, in order. */
  function DetailContents(ds: seq<RecordDetail>): (cs: seq<DetailContent>)
    ensures |cs| == |ds|
  {
    if ds == [] then [] else DetailContents(ds[..|ds| - 1]) + [Last(ds).Content()]
  }

  /** The contents of a list of records, in order. */
  function Contents(rs: seq<ServerRecord>): (cs: seq<RecordContent>)
    reads rs
    ensures |cs| == |rs|
  {
    if rs == [] then [] else Contents(rs[..|rs| - 1]) + [Last(rs).Content()]
  }

  /** The ids of a list of details, in order. */
  function DetailIds(ds: seq<RecordDetail>): (us: seq<Uuid>)
    ensures |us| == |ds|
  {
    if ds == [] then [] else DetailIds(ds[..|ds| - 1]) + [Last(ds).id]
  }

  /** Appending a detail appends its content and its id. */
  lemma DetailsAppend(ds: seq<RecordDetail>, d: RecordDetail)
    ensures DetailContents(ds + [d]) == DetailContents(ds) + [d.Content()]
    ensures DetailIds(ds + [d]) == DetailIds(ds) + [d.id]
  {
    assert (ds + [d])[..|ds|] == ds;
  }

  /** A record's id followed by its details' ids. */
  function RecordIds(r: ServerRecord): seq<Uuid>
    reads r
  {
    [r.id] + DetailIds(r.details)
  }

  /** Appending a record appends its content and its ids. */
  lemma RecordsAppend(rs: seq<ServerRecord>, r: ServerRecord)
    ensures Contents(rs + [r]) == Contents(rs) + [r.Content()]
    ensures AllIds(rs + [r]) == AllIds(rs) + RecordIds(r)
  {
    assert (rs + [r])[..|rs|] == rs;
  }

  /** The contents of a list of records are those of its elements, position by position. */
  lemma {:induction false} ContentsAt(rs: seq<ServerRecord>)
    ensures forall i :: 0 <= i < |rs| ==> Contents(rs)[i] == rs[i].Content()
  {
    if rs != [] {
      ContentsAt(rs[..|rs| - 1]);
    }
  }

  /** Likewise for the contents of a list of details. */
  lemma {:induction false} DetailContentsAt(ds: seq<RecordDetail>)
    ensures forall j :: 0 <= j < |ds| ==> DetailContents(ds)[j] == ds[j].Content()
  {
    if ds != [] {
      DetailContentsAt(ds[..|ds| - 1]);
    }
  }

  /** Every id reachable from `rs`, record by record. */
  function AllIds(rs: seq<ServerRecord>): seq<Uuid>
    reads rs
  {
    if rs == [] then [] else AllIds(rs[..|rs| - 1]) + RecordIds(Last(rs))
  }

  /** No identifier occurs twice. */
  predicate DistinctIds(us: seq<Uuid>) {
    forall i, j :: 0 <= i < j < |us| ==> us[i] != us[j]
  }

  lemma DistinctIdsSplit(us: seq<Uuid>, vs: seq<Uuid>)
    requires DistinctIds(us + vs)
    ensures DistinctIds(us) && DistinctIds(vs)
    ensures forall u :: u in us ==> u !in vs
  {
    forall i, j | 0 <= i < j < |vs|
      ensures vs[i] != vs[j]
    {
      assert vs[i] == (us + vs)[|us| + i] && vs[j] == (us + vs)[|us| + j];
    }
    forall i, j | 0 <= i < j < |us|
      ensures us[i] != us[j]
    {
      assert us[i] == (us + vs)[i] && us[j] == (us + vs)[j];
    }
    forall i, j | 0 <= i < |us| && 0 <= j < |vs|
      ensures us[i] != vs[j]
    {
      assert us[i] == (us + vs)[i] && vs[j] == (us + vs)[|us| + j];
    }
  }

  lemma {:induction false} DetailIdsAt(ds: seq<RecordDetail>)
    ensures forall j :: 0 <= j < |ds| ==> DetailIds(ds)[j] == ds[j].id
  {
    if ds != [] {
      DetailIdsAt(ds[..|ds| - 1]);
    }
  }

  lemma {:induction false} RecordIdIn(rs: seq<ServerRecord>, i: nat)
    requires i < |rs|
    ensures rs[i].id in AllIds(rs)
  {
    var prefix := rs[..|rs| - 1];
    assert rs == prefix + [Last(rs)];
    if i == |rs| - 1 {
      assert RecordIds(rs[i])[0] == rs[i].id;
    } else {
      assert rs[i] == prefix[i];
      RecordIdIn(prefix, i);
    }
  }

  /**
   * When every reachable id is distinct, no two of the records are equal
   * under the program's `==`, and no two details of one record are either.
   */
  lemma {:induction false} DistinctIdsUnequal(rs: seq<ServerRecord>)
    requires DistinctIds(AllIds(rs))
    ensures forall i, j :: 0 <= i < j < |rs| ==> !rs[i].Equals(rs[j])
    ensures forall i, j, k :: 0 <= i < |rs| && 0 <= j < k < |rs[i].details| ==>
      !rs[i].details[j].Equals(rs[i].details[k])
  {
    if rs != [] {
      var prefix := rs[..|rs| - 1];
      var last := Last(rs);
      assert rs == prefix + [last];
      DistinctIdsSplit(AllIds(prefix), RecordIds(last));
      DistinctIdsUnequal(prefix);
      DistinctIdsSplit([last.id], DetailIds(last.details));
      DetailIdsAt(last.details);
      forall i | 0 <= i < |prefix|
        ensures !rs[i].Equals(last)
      {
        RecordIdIn(prefix, i);
        assert last.id in RecordIds(last);
      }
    }
  }
}
