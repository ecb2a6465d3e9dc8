/**
 * `ClientStub`: the stub service that owns the login flag, the in-flight
 * counter and the records, updated in place by its operations.
 *
 * The work the program hands to `DispatchQueue.main.async` or to a new
 * unstructured `Task` is done here at the point where it is issued, and `Task.sleep` is
 * the parameter saying whether the suspension resumed or threw. `UUID()` is
 * the `ids` parameter.
 */
module Client {
  import opened Ids
  import opened Entities
  import opened Placeholder
  import Session

  /**
   * `us` holds the tokens `lo`, `lo + 1`, ... in order: what a run of
   * `Fresh()` calls hands out. Used to prove that the ids are distinct.
   */
  predicate Consecutive(us: seq<Uuid>, lo: nat) {
    forall k :: 0 <= k < |us| ==> us[k].token == lo + k
  }

  lemma ConsecutiveAppend(us: seq<Uuid>, vs: seq<Uuid>, lo: nat)
    requires Consecutive(us, lo) && Consecutive(vs, lo + |us|)
    ensures Consecutive(us + vs, lo)
  {
    forall k | 0 <= k < |us + vs|
      ensures (us + vs)[k].token == lo + k
    {
      if k < |us| {
        assert (us + vs)[k] == us[k];
      } else {
        assert (us + vs)[k] == vs[k - |us|];
      }
    }
  }

  lemma ConsecutiveDistinct(us: seq<Uuid>, lo: nat)
    requires Consecutive(us, lo)
    ensures DistinctIds(us)
    ensures forall u :: u in us ==> lo <= u.token < lo + |us|
  {
  }

  /**
   * The ids of `rs`, of records and of details, are pairwise distinct and
   * were all issued while the id source went from `lo` up to `hi`; hence no
   * two records of `rs` are `==`.
   */
  ghost predicate IssuedBetween(rs: seq<ServerRecord>, lo: nat, hi: nat)
    reads rs
  {
    && DistinctIds(AllIds(rs))
    && (forall u :: u in AllIds(rs) ==> lo <= u.token < hi)
    && (forall i, j :: 0 <= i < j < |rs| ==> !rs[i].Equals(rs[j]))
  }

  /**
   * What a list of record objects holding the generated contents looks like
   * object by object: record `i` is named "Record \(i + 1)", and its detail
   * `j` carries the `j`-th drawn count and "Detail number \(j + 1)".
   */
  lemma GeneratedRecordAt(rs: seq<ServerRecord>, draws: seq<Draw>, i: nat)
    requires ValidDraws(draws) && Contents(rs) == PlaceholderRecords(draws)
    requires i < |rs|
    ensures |rs| == RecordsPerFetch
    ensures rs[i].name == RecordName(i + 1)
    ensures |rs[i].details| == draws[i].upper - 1
    ensures forall j :: 0 <= j < |rs[i].details| ==>
      rs[i].details[j].count == draws[i].counts[j] && rs[i].details[j].description == DetailDescription(j + 1)
  {
    PlaceholderShape(draws);
    ContentsAt(rs);
    assert rs[i].Content() == PlaceholderRecords(draws)[i];
    DetailContentsAt(rs[i].details);
  }

  /**
   * One pass of the outer generation loop: `ServerRecord(named: "Record
   * \(count)")` and then, for `detailCount in 1..<r`, a new detail with the
   * drawn count and description "Detail number \(detailCount)" inserted into it.
   */
  method MakeRecord(count: nat, draw: Draw, ids: IdSource) returns (record: ServerRecord)
    requires ValidDraw(draw)
    modifies ids
    ensures fresh(record)
    ensures record.Content() == RecordContent(RecordName(count), PlaceholderDetails(draw))
    ensures Consecutive(RecordIds(record), old(ids.next))
    ensures ids.next == old(ids.next) + |RecordIds(record)|
  {
    record := new ServerRecord(RecordName(count), ids);
    ghost var first := record.id.token;
    for detailCount := 1 to draw.upper
      invariant record.name == RecordName(count)
      invariant DetailContents(record.details) == DetailsUpTo(draw.counts, detailCount - 1)
      invariant record.id.token == first
      invariant Consecutive(DetailIds(record.details), first + 1)
      invariant ids.next == first + 1 + |record.details|
    {
      var detail := NewRecordDetail(draw.counts[detailCount - 1], DetailDescription(detailCount), ids);
      DetailsAppend(record.details, detail);
      ConsecutiveAppend(DetailIds(record.details), [detail.id], first + 1);
      record.Insert(detail);
    }
    ConsecutiveAppend([record.id], DetailIds(record.details), first);
  }

  /**
   * One pass of the generation loop: build record number `count` and append
   * it to `fetched`, which then holds the first `count` generated records.
   */
  method AppendRecord(fetched: seq<ServerRecord>, count: nat, draws: seq<Draw>, ids: IdSource, ghost first: nat)
    returns (extended: seq<ServerRecord>)
    requires 1 <= count <= |draws| && forall i :: 0 <= i < |draws| ==> ValidDraw(draws[i])
    requires Contents(fetched) == RecordsUpTo(draws, count - 1)
    requires Consecutive(AllIds(fetched), first) && ids.next == first + |AllIds(fetched)|
    modifies ids
    ensures |extended| == |fetched| + 1 && extended[..|fetched|] == fetched
    ensures fresh(extended[|fetched|])
    ensures forall r :: r in extended ==> r in fetched || fresh(r)
    ensures Contents(extended) == RecordsUpTo(draws, count)
    ensures Consecutive(AllIds(extended), first) && ids.next == first + |AllIds(extended)|
  {
    var record := MakeRecord(count, draws[count - 1], ids);
    RecordsAppend(fetched, record);
    ConsecutiveAppend(AllIds(fetched), RecordIds(record), first);
    extended := fetched + [record];
  }

  /**
   * The generation loop of `fetchDataSets()`, `for count in 1..<5`: one
   * record per pass, appended to `fetchedRecords`, so that after a pass the
   * list holds the records built so far, in order.
   */
  method GenerateRecords(draws: seq<Draw>, ids: IdSource) returns (fetchedRecords: seq<ServerRecord>)
    requires ValidDraws(draws)
    modifies ids
    ensures Contents(fetchedRecords) == PlaceholderRecords(draws)
    ensures forall r :: r in fetchedRecords ==> fresh(r)
    ensures Consecutive(AllIds(fetchedRecords), old(ids.next))
    ensures ids.next == old(ids.next) + |AllIds(fetchedRecords)|
  {
    ghost var first := ids.next;
    fetchedRecords := [];
    for count := 1 to 5
      invariant Contents(fetchedRecords) == RecordsUpTo(draws, count - 1)
      invariant forall r :: r in fetchedRecords ==> fresh(r)
      invariant Consecutive(AllIds(fetchedRecords), first)
      invariant ids.next == first + |AllIds(fetchedRecords)|
    {
      fetchedRecords := AppendRecord(fetchedRecords, count, draws, ids, first);
    }
  }

  class ClientStub {
    /** The simulated latency of every remote operation, in nanoseconds. */
    static const SleepNanos: nat := 2_000_000_000

    var isLoggedIn: bool
    var fetchCount: int
    var records: seq<ServerRecord>
    /** Every value `fetchCount` has taken, in order. */
    ghost var countHistory: seq<int>

    /** The session this object represents. */
    ghost function State(): Session.State
      reads this, records
    {
      Session.State(isLoggedIn, fetchCount, Contents(records), countHistory)
    }

    constructor ()
      ensures State() == Session.Initial
    {
      isLoggedIn := false;
      fetchCount := 0;
      records := [];
      countHistory := [];
    }

    /** `startFetch()` */
    method StartFetch()
      modifies this
      ensures records == old(records)
      ensures State() == Session.StartFetch(old(State()))
    {
      fetchCount := fetchCount + 1;
      countHistory := countHistory + [fetchCount];
    }

    /** `endFetch()` */
    method EndFetch()
      modifies this
      ensures records == old(records)
      ensures State() == Session.EndFetch(old(State()))
    {
      fetchCount := fetchCount - 1;
      countHistory := countHistory + [fetchCount];
    }

    /**
     * `fetchDataSets()`. On completion `records` holds only newly created
     * records, and every record and detail in it has its own id, none of
     * them issued before the call.
     */
    method FetchDataSets(draws: seq<Draw>, sleep: Session.Outcome, ids: IdSource)
      returns (outcome: Session.Outcome)
      requires ValidDraws(draws)
      modifies this, ids
      ensures State() == Session.Fetch(old(State()), draws, sleep).state
      ensures outcome == Session.Fetch(old(State()), draws, sleep).outcome
      ensures outcome == Session.Completed ==>
        && (forall r :: r in records ==> fresh(r))
        && IssuedBetween(records, old(ids.next), ids.next)
      ensures outcome == Session.Cancelled ==> records == old(records)
      ensures forall u: Uuid :: old(ids.Issued(u)) ==> ids.Issued(u)
    {
      StartFetch();
      ghost var started := State();
      ghost var first := ids.next;
      var fetchedRecords := GenerateRecords(draws, ids);
      ghost var fetchedIds := AllIds(fetchedRecords);
      ConsecutiveDistinct(fetchedIds, first);
      assert first <= ids.next;
      assert State() == started;
      if sleep == Session.Completed {
        records := fetchedRecords;
        outcome := Session.Completed;
        assert State() == started.(records := PlaceholderRecords(draws));
      } else {
        outcome := Session.Cancelled;
      }
      ghost var generated := State();
      EndFetch();
      assert State() == Session.EndFetch(generated);
      if outcome == Session.Completed {
        assert AllIds(records) == fetchedIds;
        DistinctIdsUnequal(records);
      }
    }

    /**
     * `login()`: after the sleep the client is logged in and runs a nested
     * `fetchDataSets()`, whose error, if any, is the login's. What a
     * completed login leaves in `records` is what its nested fetch produced.
     */
    method Login(loginSleep: Session.Outcome, fetchSleep: Session.Outcome, draws: seq<Draw>, ids: IdSource)
      returns (outcome: Session.Outcome)
      requires ValidDraws(draws)
      modifies this, ids
      ensures State() == Session.Login(old(State()), loginSleep, fetchSleep, draws).state
      ensures outcome == Session.Login(old(State()), loginSleep, fetchSleep, draws).outcome
      ensures outcome == Session.Completed ==>
        && (forall r :: r in records ==> fresh(r))
        && IssuedBetween(records, old(ids.next), ids.next)
      ensures outcome == Session.Cancelled ==> records == old(records)
      ensures forall u: Uuid :: old(ids.Issued(u)) ==> ids.Issued(u)
    {
      StartFetch();
      if loginSleep == Session.Cancelled {
        outcome := Session.Cancelled;
      } else {
        isLoggedIn := true;
        outcome := FetchDataSets(draws, fetchSleep, ids);
      }
      EndFetch();
    }

    /** `logout()`: no suspension, no in-flight marker. */
    method Logout()
      modifies this
      ensures records == []
      ensures State() == Session.Logout(old(State()))
    {
      isLoggedIn := false;
      records := [];
    }
  }
}
